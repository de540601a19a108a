/**
 * The two-wire bus the driver talks through, modelled abstractly: the MicroPython
 * `machine.I2C` object is foreign code, so only what the driver can observe of it
 * is kept. Registers of every attached device are one store keyed by
 * (device address, register address); a payload of several bytes occupies
 * consecutive registers. Whether the next transaction fails (the foreign call
 * raises) is decided by a schedule with one entry per transaction, which also
 * carries the registers the devices rewrote on their own before it; once the
 * schedule is used up every transaction succeeds and no device acts. A read
 * from a register no device answers for fails as well.
 */
module I2C {
  import opened Wrappers

  /** One unsigned 8-bit value as carried on the bus. */
  type byte = x: int | 0 <= x < 0x100

  type Memory = map<(int, int), byte>

  /** One completed `writeto_mem(addr, reg, data)` transaction. */
  datatype Write = Write(addr: int, reg: int, data: seq<byte>)

  /** Register `reg + i` of device `addr` holds `data[i]`; every other register keeps its value. */
  function Store(mem: Memory, addr: int, reg: int, data: seq<byte>): (m: Memory)
    ensures forall j :: reg <= j < reg + |data| ==> (addr, j) in m && m[(addr, j)] == data[j - reg]
    ensures forall a, j :: (a != addr || j < reg || reg + |data| <= j) ==>
              ((a, j) in m <==> (a, j) in mem) && ((a, j) in mem ==> m[(a, j)] == mem[(a, j)])
    decreases |data|
  {
    if data == [] then mem
    else Store(mem[(addr, reg) := data[0]], addr, reg + 1, data[1..])
  }

  /** The `n` registers from `reg` on, if the device has them all. */
  function Load(mem: Memory, addr: int, reg: int, n: nat): (r: Option<seq<byte>>)
    ensures r.Some? <==> forall j :: reg <= j < reg + n ==> (addr, j) in mem
    ensures r.Some? ==> |r.value| == n && forall j :: reg <= j < reg + n ==> r.value[j - reg] == mem[(addr, j)]
    decreases n
  {
    if n == 0 then Some([])
    else if (addr, reg) !in mem then None
    else match Load(mem, addr, reg + 1, n - 1)
      case None => None
      case Some(rest) => Some([mem[(addr, reg)]] + rest)
  }

  /**
   * What happens on the bus around one transaction, as seen from the driver:
   * `device` holds the registers the attached devices rewrote on their own since
   * the previous transaction (the voice chip storing a newly recognised command
   * id, say), and `fails` says whether the transaction itself raises.
   */
  datatype Tick = Tick(fails: bool, device: Memory)

  /** The observable state of the bus: register store, what the coming transactions meet, log of completed writes. */
  datatype BusState = BusState(mem: Memory, ticks: seq<Tick>, log: seq<Write>)
  {
    /** What the next transaction meets; once the schedule is used up, quiet and successful transactions. */
    function Next(): Tick {
      if ticks == [] then Tick(false, map[]) else ticks[0]
    }

    /** The next transaction raises. */
    predicate NextFails() {
      Next().fails
    }

    /** The registers as the next transaction finds them, the devices' own updates included. */
    function Current(): Memory {
      mem + Next().device
    }

    /** No transaction from now on raises. */
    predicate Healthy() {
      forall i :: 0 <= i < |ticks| ==> !ticks[i].fails
    }

    /** No device rewrites a register on its own from now on. */
    predicate Quiet() {
      forall i :: 0 <= i < |ticks| ==> ticks[i].device == map[]
    }

    /** The schedule once one transaction has been attempted. */
    function RestTicks(): seq<Tick> {
      if ticks == [] then [] else ticks[1..]
    }

    /** The state after attempting `writeto_mem(addr, reg, data)`. */
    function AfterWrite(addr: int, reg: int, data: seq<byte>): BusState {
      if NextFails() then BusState(Current(), RestTicks(), log)
      else BusState(Store(Current(), addr, reg, data), RestTicks(), log + [Write(addr, reg, data)])
    }

    /** The state after attempting a read: only the devices' own updates and the schedule move on. */
    function AfterRead(): BusState {
      BusState(Current(), RestTicks(), log)
    }

    /** What `readfrom_mem(addr, reg, n)` yields; None when it raises. */
    function ReadResult(addr: int, reg: int, n: nat): Option<seq<byte>> {
      if NextFails() then None else Load(Current(), addr, reg, n)
    }
  }

  /** Once the bus is healthy and quiet it stays so, after a write and after a read. */
  lemma HealthyAfterWrite(s: BusState, addr: int, reg: int, data: seq<byte>)
    requires s.Healthy()
    ensures !s.NextFails() && s.AfterWrite(addr, reg, data).Healthy() && s.AfterRead().Healthy()
    ensures s.Quiet() ==> s.Current() == s.mem && s.AfterWrite(addr, reg, data).Quiet() && s.AfterRead().Quiet()
  {
    if s.ticks != [] {
      assert s.RestTicks() == s.ticks[1..];
      forall i | 0 <= i < |s.ticks| - 1 ensures s.ticks[1..][i] == s.ticks[i + 1] {
      }
      assert s.Next() == s.ticks[0];
    }
  }

  /** A read that follows a successful write of the same registers, with no device rewriting them in between, returns the payload. */
  lemma ReadAfterWrite(s: BusState, addr: int, reg: int, data: seq<byte>)
    requires !s.NextFails()
    requires !s.AfterWrite(addr, reg, data).NextFails()
    requires forall j :: reg <= j < reg + |data| ==> (addr, j) !in s.AfterWrite(addr, reg, data).Next().device
    ensures s.AfterWrite(addr, reg, data).ReadResult(addr, reg, |data|) == Some(data)
  {
    var t := s.AfterWrite(addr, reg, data);
    var m := t.Current();
    assert t.mem == Store(s.Current(), addr, reg, data);
    forall j | reg <= j < reg + |data| ensures (addr, j) in m && m[(addr, j)] == data[j - reg] {
      assert (addr, j) in t.mem && (addr, j) !in t.Next().device;
    }
    var r := Load(m, addr, reg, |data|);
    assert r.Some?;
    forall i | 0 <= i < |data| ensures r.value[i] == data[i] {
      assert r.value[(reg + i) - reg] == m[(addr, reg + i)];
    }
    assert r.value == data;
  }

  /** The foreign bus object: its methods act on the store, the log and the schedule. */
  class Bus {
    var mem: Memory
    var ticks: seq<Tick>
    var log: seq<Write>

    function State(): BusState
      reads this
    {
      BusState(mem, ticks, log)
    }

    constructor (mem: Memory, ticks: seq<Tick>)
      ensures State() == BusState(mem, ticks, [])
    {
      this.mem := mem;
      this.ticks := ticks;
      this.log := [];
    }

    /** The devices act, then the next transaction is taken off the schedule; returns whether it raises. */
    method Advance() returns (fails: bool)
      modifies this
      ensures fails == old(State()).NextFails()
      ensures State() == old(State()).AfterRead()
    {
      var tick := if ticks == [] then Tick(false, map[]) else ticks[0];
      mem := mem + tick.device;
      ticks := if ticks == [] then [] else ticks[1..];
      fails := tick.fails;
    }

    /** `writeto_mem`; `ok` is false where the foreign call raises. */
    method WriteToMem(addr: int, reg: int, data: seq<byte>) returns (ok: bool)
      modifies this
      ensures ok == !old(State()).NextFails()
      ensures State() == old(State()).AfterWrite(addr, reg, data)
    {
      var fails := Advance();
      ok := !fails;
      if ok {
        mem := Store(mem, addr, reg, data);
        log := log + [Write(addr, reg, data)];
      }
    }

    /** `readfrom_mem`; None where the foreign call raises. */
    method ReadFromMem(addr: int, reg: int, n: nat) returns (data: Option<seq<byte>>)
      modifies this
      ensures data == old(State()).ReadResult(addr, reg, n)
      ensures data.Some? ==> |data.value| == n
      ensures State() == old(State()).AfterRead()
    {
      var fails := Advance();
      data := if fails then None else Load(mem, addr, reg, n);
    }
  }

  /** The blocking `sleep` of `utime`, recorded as the list of durations slept. */
  class Clock {
    var naps: seq<nat>

    constructor ()
      ensures naps == []
    {
      naps := [];
    }

    method Sleep(d: nat)
      modifies this
      ensures naps == old(naps) + [d]
    {
      naps := naps + [d];
    }
  }
}
