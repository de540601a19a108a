/**
 * The LED variant of the sketch: setup of the voice sensor, the command id poll,
 * and the dispatch of recognised ids to colours on a NeoPixel strip. The
 * endless polling loop is modelled by its body, the pure transition `Step`, by
 * the fold `Run` of that transition over finitely many polls, and by `MainLoop`,
 * which runs a given number of iterations against the sensor and the strip.
 */
module NeopixelSketch {
  import opened Wrappers
  import opened I2C
  import opened DF2301Q

  const NeopixelNumber: nat := 5
  const SleepSeconds: nat := 1
  const TurnOnCommand: int := 103
  const TurnOffCommand: int := 104

  datatype Rgb = Rgb(r: int, g: int, b: int)

  /** Every channel fits in one byte. */
  predicate InRange(c: Rgb) {
    0 <= c.r < 0x100 && 0 <= c.g < 0x100 && 0 <= c.b < 0x100
  }

  datatype ColorCommand = ColorCommand(name: string, color: Rgb)

  /** Command id to colour name and RGB value. */
  const ColorCommands: map<int, ColorCommand> := map[
    116 := ColorCommand("red", Rgb(250, 0, 0)),
    117 := ColorCommand("orange", Rgb(250, 165, 0)),
    118 := ColorCommand("yellow", Rgb(250, 255, 204)),
    119 := ColorCommand("green", Rgb(0, 250, 0)),
    120 := ColorCommand("cyan", Rgb(0, 255, 255)),
    121 := ColorCommand("blue", Rgb(0, 0, 250)),
    122 := ColorCommand("purple", Rgb(128, 0, 128)),
    123 := ColorCommand("white", Rgb(250, 250, 250))
  ]

  /** Rendered by "turn on" when no colour has been chosen yet. */
  const Gray := Rgb(100, 100, 100)
  /** Rendered by "turn off". */
  const Black := Rgb(0, 0, 0)

  /** The colours of the table. */
  const Palette: set<Rgb> := set id | id in ColorCommands :: ColorCommands[id].color

  /** The ids the dispatch reacts to. */
  predicate Known(id: int) {
    id == TurnOnCommand || id == TurnOffCommand || id in ColorCommands
  }

  /** The two variables the loop keeps: `light_on` and `last_color`. */
  datatype LightState = LightState(lightOn: bool, lastColor: Option<Rgb>)

  /** The values the loop starts from. */
  const Initial := LightState(false, None)

  /** A new state and the colours rendered on the way, in order. */
  datatype Reaction = Reaction(state: LightState, renders: seq<Rgb>)

  /** The remembered colour, if any, is one of the table's. */
  predicate Inv(s: LightState) {
    s.lastColor.Some? ==> s.lastColor.value in Palette
  }

  /** The first `if` of the loop body: "turn on the light". */
  function TurnOnRule(s: LightState, id: int): Reaction {
    if id == TurnOnCommand then
      Reaction(s.(lightOn := true), [if s.lastColor.None? then Gray else s.lastColor.value])
    else Reaction(s, [])
  }

  /** The second `if`: "turn off the light". */
  function TurnOffRule(s: LightState, id: int): Reaction {
    if id == TurnOffCommand then Reaction(s.(lightOn := false), [Black])
    else Reaction(s, [])
  }

  /** The third `if`: a table colour, taken only while the light is on. */
  function ColorRule(s: LightState, id: int): Reaction {
    if id in ColorCommands && s.lightOn then
      Reaction(s.(lastColor := Some(ColorCommands[id].color)), [ColorCommands[id].color])
    else Reaction(s, [])
  }

  /** One iteration of the loop body: the three `if`s in turn, for a polled id or none. */
  function Step(s: LightState, cmd: Option<int>): (r: Reaction)
    ensures |r.renders| <= 1
    ensures cmd == Some(TurnOnCommand) ==>
              r == Reaction(LightState(true, s.lastColor), [s.lastColor.GetOr(Gray)])
    ensures cmd == Some(TurnOffCommand) ==>
              r == Reaction(LightState(false, s.lastColor), [Black])
    ensures cmd.Some? && cmd.value in ColorCommands && s.lightOn ==>
              r == Reaction(LightState(true, Some(ColorCommands[cmd.value].color)), [ColorCommands[cmd.value].color])
    ensures cmd.Some? && cmd.value in ColorCommands && !s.lightOn ==> r == Reaction(s, [])
    ensures cmd.None? || !Known(cmd.value) ==> r == Reaction(s, [])
  {
    match cmd
    case None => Reaction(s, [])
    case Some(id) =>
      var on := TurnOnRule(s, id);
      var off := TurnOffRule(on.state, id);
      var color := ColorRule(off.state, id);
      Reaction(color.state, on.renders + off.renders + color.renders)
  }

  /** The loop body folded over finitely many polls, oldest first. */
  function Run(s: LightState, cmds: seq<Option<int>>): (r: Reaction)
    ensures |r.renders| <= |cmds|
    decreases |cmds|
  {
    if cmds == [] then Reaction(s, [])
    else
      var before := Run(s, cmds[..|cmds| - 1]);
      var last := Step(before.state, cmds[|cmds| - 1]);
      Reaction(last.state, before.renders + last.renders)
  }

  /** Every colour of the table fits in bytes. */
  lemma PaletteInRange()
    ensures forall c :: c in Palette ==> InRange(c)
  {
    forall c | c in Palette ensures InRange(c) {
      var id :| id in ColorCommands && ColorCommands[id].color == c;
    }
  }

  /** A step keeps the remembered colour in the table and renders only byte-sized colours. */
  lemma StepKeepsInv(s: LightState, cmd: Option<int>)
    requires Inv(s)
    ensures Inv(Step(s, cmd).state)
    ensures forall c :: c in Step(s, cmd).renders ==> InRange(c)
  {
    PaletteInRange();
    if cmd.Some? && cmd.value in ColorCommands {
      assert ColorCommands[cmd.value].color in Palette;
    }
  }

  /** The same holds for any number of steps. */
  lemma {:induction false} RunKeepsInv(s: LightState, cmds: seq<Option<int>>)
    requires Inv(s)
    ensures Inv(Run(s, cmds).state)
    ensures forall c :: c in Run(s, cmds).renders ==> InRange(c)
    decreases |cmds|
  {
    if cmds != [] {
      var before := Run(s, cmds[..|cmds| - 1]);
      RunKeepsInv(s, cmds[..|cmds| - 1]);
      StepKeepsInv(before.state, cmds[|cmds| - 1]);
    }
  }

  /** Joining sequences is associative. */
  lemma ConcatAssoc<T>(x: seq<T>, y: seq<T>, z: seq<T>)
    ensures (x + y) + z == x + (y + z)
  {
  }

  /** A non-empty sequence is its head followed by its tail. */
  lemma HeadTail<T>(x: seq<T>)
    requires x != []
    ensures [x[0]] + x[1..] == x
  {
  }

  /** Running two stretches of polls one after the other is running them joined. */
  lemma {:induction false} RunConcat(s: LightState, a: seq<Option<int>>, b: seq<Option<int>>)
    ensures Run(s, a + b).state == Run(Run(s, a).state, b).state
    ensures Run(s, a + b).renders == Run(s, a).renders + Run(Run(s, a).state, b).renders
    decreases |b|
  {
    var mid := Run(s, a);
    if b == [] {
      assert a + b == a;
      assert Run(mid.state, b) == Reaction(mid.state, []);
      assert mid.renders + [] == mid.renders;
    } else {
      var b', x := b[..|b| - 1], b[|b| - 1];
      assert b == b' + [x];
      assert a + b == (a + b') + [x];
      RunConcat(s, a, b');
      RunSnoc(s, a + b', x);
      RunSnoc(mid.state, b', x);
      var rest := Run(mid.state, b');
      var last := Step(rest.state, x);
      calc {
        Run(s, a + b).renders;
        Run(s, a + b').renders + last.renders;
        (mid.renders + rest.renders) + last.renders;
        { ConcatAssoc(mid.renders, rest.renders, last.renders); }
        mid.renders + (rest.renders + last.renders);
        mid.renders + Run(mid.state, b).renders;
      }
    }
  }

  /** One more poll: the fold takes one more step. */
  lemma RunSnoc(s: LightState, cmds: seq<Option<int>>, cmd: Option<int>)
    ensures Run(s, cmds + [cmd]) ==
              Reaction(Step(Run(s, cmds).state, cmd).state, Run(s, cmds).renders + Step(Run(s, cmds).state, cmd).renders)
  {
    assert (cmds + [cmd])[..|cmds|] == cmds;
  }

  /** Polls that saw no command change nothing and render nothing. */
  lemma {:induction false} SilenceChangesNothing(s: LightState, cmds: seq<Option<int>>)
    requires forall i :: 0 <= i < |cmds| ==> cmds[i].None?
    ensures Run(s, cmds) == Reaction(s, [])
    decreases |cmds|
  {
    if cmds != [] {
      SilenceChangesNothing(s, cmds[..|cmds| - 1]);
    }
  }

  /** The session "on, orange, off, orange" from a fresh start. */
  lemma ExampleSession()
    ensures Run(Initial, [Some(103)]) == Reaction(LightState(true, None), [Gray])
    ensures Run(Initial, [Some(103), Some(117)]) ==
              Reaction(LightState(true, Some(Rgb(250, 165, 0))), [Gray, Rgb(250, 165, 0)])
    ensures Run(Initial, [Some(103), Some(117), Some(104)]) ==
              Reaction(LightState(false, Some(Rgb(250, 165, 0))), [Gray, Rgb(250, 165, 0), Black])
    ensures Run(Initial, [Some(103), Some(117), Some(104), Some(117)]) ==
              Reaction(LightState(false, Some(Rgb(250, 165, 0))), [Gray, Rgb(250, 165, 0), Black])
  {
    var c1, c2, c3, c4 := [Some(103)], [Some(103), Some(117)], [Some(103), Some(117), Some(104)],
                          [Some(103), Some(117), Some(104), Some(117)];
    assert c2[..1] == c1 && c3[..2] == c2 && c4[..3] == c3;
  }

  /** `get_cmd_id`'s mapping: 0 means no command. */
  function CommandIdOf(raw: byte): (id: Option<int>)
    ensures id.None? <==> raw == 0
    ensures id.Some? ==> id.value == raw && 0 < id.value < 0x100
  {
    if raw != 0 then Some(raw) else None
  }

  /** The ids `n` polls see, one read of CMDID each, starting from bus state `s`. */
  function Polls(s: BusState, addr: int, n: nat): (ids: seq<Option<int>>)
    ensures |ids| == n
    ensures forall i :: 0 <= i < n ==> ids[i].None? || 0 < ids[i].value < 0x100
    decreases n
  {
    if n == 0 then []
    else [CommandIdOf(ReadRegValue(s, addr, RegCmdId))] + Polls(s.AfterRead(), addr, n - 1)
  }

  /** The bus after `n` reads: the devices' own updates are taken in and the schedule moves on, and nothing is logged. */
  function AfterReads(s: BusState, n: nat): (t: BusState)
    ensures t.log == s.log
    ensures n <= |s.ticks| ==> |t.ticks| == |s.ticks| - n
    decreases n
  {
    if n == 0 then s else AfterReads(s.AfterRead(), n - 1)
  }

  /** On a quiet bus polling leaves the registers as they were. */
  lemma {:induction false} QuietPollsKeepRegisters(s: BusState, n: nat)
    requires s.Quiet()
    ensures AfterReads(s, n).mem == s.mem
    decreases n
  {
    if n > 0 {
      assert s.Current() == s.mem;
      var t := s.AfterRead();
      forall i | 0 <= i < |t.ticks| ensures t.ticks[i].device == map[] {
        assert t.ticks[i] == s.ticks[i + 1];
      }
      QuietPollsKeepRegisters(t, n - 1);
    }
  }

  /** While every read fails, every poll sees no command. */
  lemma {:induction false} FailingBusPollsNothing(s: BusState, addr: int, n: nat)
    requires n <= |s.ticks| && forall i :: 0 <= i < n ==> s.ticks[i].fails
    ensures forall i :: 0 <= i < n ==> Polls(s, addr, n)[i] == None
    decreases n
  {
    if n > 0 {
      var t := s.AfterRead();
      assert t.ticks == s.ticks[1..];
      FailingBusPollsNothing(t, addr, n - 1);
    }
  }

  /** The byte the chip stores in CMDID for a recognised id, 0 for nothing heard. */
  function RawOf(id: Option<int>): (raw: byte)
    requires id.None? || 0 < id.value < 0x100
    ensures CommandIdOf(raw) == id
  {
    if id.Some? then id.value else 0
  }

  /** A schedule of successful reads before each of which the chip at `addr` stores the next id heard in CMDID. */
  function Script(addr: int, ids: seq<Option<int>>): (ticks: seq<Tick>)
    requires forall i :: 0 <= i < |ids| ==> ids[i].None? || 0 < ids[i].value < 0x100
    ensures |ticks| == |ids|
    ensures forall i :: 0 <= i < |ids| ==> ticks[i] == Tick(false, map[(addr, RegCmdId) := RawOf(ids[i])])
  {
    seq(|ids|, i requires 0 <= i < |ids| => Tick(false, map[(addr, RegCmdId) := RawOf(ids[i])]))
  }

  /**
   * Every sequence of polled ids is possible: on a bus where the chip hears
   * exactly those ids, one before each read, polling yields them in order,
   * whatever the registers held before.
   */
  lemma {:induction false} PollsReachEverything(mem: Memory, log: seq<Write>, addr: int, ids: seq<Option<int>>)
    requires forall i :: 0 <= i < |ids| ==> ids[i].None? || 0 < ids[i].value < 0x100
    ensures BusState(mem, Script(addr, ids), log).Healthy()
    ensures Polls(BusState(mem, Script(addr, ids), log), addr, |ids|) == ids
    decreases |ids|
  {
    var s := BusState(mem, Script(addr, ids), log);
    if ids != [] {
      var rest := ids[1..];
      ScriptedPoll(mem, log, addr, ids);
      PollsReachEverything(mem[(addr, RegCmdId) := RawOf(ids[0])], log, addr, rest);
      calc {
        Polls(s, addr, |ids|);
        [ids[0]] + Polls(BusState(mem[(addr, RegCmdId) := RawOf(ids[0])], Script(addr, rest), log), addr, |rest|);
        [ids[0]] + rest;
        { HeadTail(ids); }
        ids;
      }
    }
  }

  /**
   * The script as a whole can see any commands: when `setup`'s three writes go
   * through and the chip then hears `ids`, one before each poll, the polls of
   * the main loop yield exactly `ids`.
   */
  lemma SessionReachesEverything(mem: Memory, log: seq<Write>, ids: seq<Option<int>>)
    requires forall i :: 0 <= i < |ids| ==> ids[i].None? || 0 < ids[i].value < 0x100
    ensures Polls(AfterSetup(BusState(mem, [Tick(false, map[]), Tick(false, map[]), Tick(false, map[])] + Script(DefaultAddr, ids), log),
                             DefaultAddr), DefaultAddr, |ids|) == ids
  {
    var script := Script(DefaultAddr, ids);
    var ok := Tick(false, map[]);
    var s0 := BusState(mem, [ok, ok, ok] + script, log);
    ThreeCons(ok, script);
    var s1 := s0.AfterWrite(DefaultAddr, RegSetVolume, [5]);
    QuietWrite(s0, DefaultAddr, RegSetVolume, [5], [ok] + ([ok] + script));
    var s2 := s1.AfterWrite(DefaultAddr, RegSetMute, [MuteByte(0)]);
    QuietWrite(s1, DefaultAddr, RegSetMute, [MuteByte(0)], [ok] + script);
    var s3 := s2.AfterWrite(DefaultAddr, RegWakeTime, [20]);
    QuietWrite(s2, DefaultAddr, RegWakeTime, [20], script);
    assert AfterSetup(s0, DefaultAddr) == s3 == BusState(s3.mem, script, s3.log);
    PollsReachEverything(s3.mem, s3.log, DefaultAddr, ids);
  }

  /** Three copies of x in front of t, one at a time. */
  lemma ThreeCons<T>(x: T, t: seq<T>)
    ensures [x, x, x] + t == [x] + ([x] + ([x] + t))
  {
  }

  /** A write met by a successful transaction with no device activity takes that transaction off the schedule. */
  lemma QuietWrite(s: BusState, addr: int, reg: int, data: seq<byte>, rest: seq<Tick>)
    requires s.ticks == [Tick(false, map[])] + rest
    ensures s.AfterWrite(addr, reg, data).ticks == rest
  {
    assert s.Next() == Tick(false, map[]);
    assert s.RestTicks() == rest;
  }

  /** The first read of a scripted bus sees the first id and leaves the rest of the script. */
  lemma ScriptedPoll(mem: Memory, log: seq<Write>, addr: int, ids: seq<Option<int>>)
    requires ids != []
    requires forall i :: 0 <= i < |ids| ==> ids[i].None? || 0 < ids[i].value < 0x100
    ensures Polls(BusState(mem, Script(addr, ids), log), addr, |ids|) ==
              [ids[0]] + Polls(BusState(mem[(addr, RegCmdId) := RawOf(ids[0])], Script(addr, ids[1..]), log), addr, |ids[1..]|)
  {
    var s := BusState(mem, Script(addr, ids), log);
    var raw := RawOf(ids[0]);
    assert s.Next() == Tick(false, map[(addr, RegCmdId) := raw]);
    assert s.Current() == mem[(addr, RegCmdId) := raw];
    assert s.Current()[(addr, RegCmdId)] == raw;
    assert Script(addr, ids)[1..] == Script(addr, ids[1..]);
    PollsUnfold(s, addr, |ids[1..]|);
  }

  /** `setup`'s effect on the bus: volume 5, then unmuted, then wake time 20. */
  function AfterSetup(s: BusState, addr: int): BusState {
    s.AfterWrite(addr, RegSetVolume, [5]).AfterWrite(addr, RegSetMute, [MuteByte(0)]).AfterWrite(addr, RegWakeTime, [20])
  }

  /** On a healthy bus `setup` logs exactly its three writes, in order, and the registers hold them. */
  lemma SetupOnHealthyBus(s: BusState, addr: int)
    requires s.Healthy()
    ensures AfterSetup(s, addr).log ==
              s.log + [Write(addr, RegSetVolume, [5]), Write(addr, RegSetMute, [0]), Write(addr, RegWakeTime, [20])]
    ensures s.Quiet() ==>
              AfterSetup(s, addr).mem == s.mem[(addr, RegSetVolume) := 5][(addr, RegSetMute) := 0][(addr, RegWakeTime) := 20]
  {
    var s1 := s.AfterWrite(addr, RegSetVolume, [5]);
    HealthyAfterWrite(s, addr, RegSetVolume, [5]);
    var s2 := s1.AfterWrite(addr, RegSetMute, [0]);
    HealthyAfterWrite(s1, addr, RegSetMute, [0]);
    HealthyAfterWrite(s2, addr, RegWakeTime, [20]);
    assert MuteByte(0) == 0;
    if s.Quiet() {
      assert Store(s.Current(), addr, RegSetVolume, [5]) == s.mem[(addr, RegSetVolume) := 5];
      assert Store(s1.Current(), addr, RegSetMute, [0]) == s1.mem[(addr, RegSetMute) := 0];
      assert Store(s2.Current(), addr, RegWakeTime, [20]) == s2.mem[(addr, RegWakeTime) := 20];
    }
  }

  /**
   * Of the `total` polls from `start`, those in `done` have been made and the
   * bus has reached `now`; the rest give the remaining ids and the final state.
   */
  ghost predicate Polled(start: BusState, now: BusState, addr: int, done: seq<Option<int>>, total: nat) {
    && |done| <= total
    && done + Polls(now, addr, total - |done|) == Polls(start, addr, total)
    && AfterReads(now, total - |done|) == AfterReads(start, total)
  }

  /** One poll is the first id of the polls, and one read the first of the reads. */
  lemma PollsUnfold(s: BusState, addr: int, k: nat)
    ensures Polls(s, addr, k + 1) == [Polls(s, addr, 1)[0]] + Polls(s.AfterRead(), addr, k)
    ensures AfterReads(s, k + 1) == AfterReads(s.AfterRead(), k)
  {
  }

  /** Polling once more appends the next poll's id and takes one read off those still to come. */
  lemma PollsSnoc(start: BusState, now: BusState, addr: int, done: seq<Option<int>>, total: nat)
    requires Polled(start, now, addr, done, total) && |done| < total
    ensures Polled(start, now.AfterRead(), addr, done + [Polls(now, addr, 1)[0]], total)
  {
    var k := total - |done| - 1;
    var id := Polls(now, addr, 1)[0];
    PollsUnfold(now, addr, k);
    ConcatAssoc(done, [id], Polls(now.AfterRead(), addr, k));
  }

  /** n copies of x. */
  function Repeat<T>(x: T, n: nat): (r: seq<T>)
    ensures |r| == n && forall i :: 0 <= i < n ==> r[i] == x
  {
    if n == 0 then [] else Repeat(x, n - 1) + [x]
  }

  /** The frames of one more step follow those of the steps before. */
  lemma RunFramesSnoc(shown: seq<seq<Rgb>>, done: seq<Option<int>>, cmd: Option<int>, n: nat)
    ensures shown + Frames(Run(Initial, done).renders, n) + Frames(Step(Run(Initial, done).state, cmd).renders, n) ==
            shown + Frames(Run(Initial, done + [cmd]).renders, n)
  {
    RunSnoc(Initial, done, cmd);
    FramesConcat(Run(Initial, done).renders, Step(Run(Initial, done).state, cmd).renders, n);
  }

  /** A strip showing colour c on all of its n pixels. */
  function Frame(c: Rgb, n: nat): seq<Rgb> {
    seq(n, _ => c)
  }

  /** One whole-strip frame per rendered colour. */
  function Frames(cs: seq<Rgb>, n: nat): (fs: seq<seq<Rgb>>)
    ensures |fs| == |cs|
  {
    seq(|cs|, i requires 0 <= i < |cs| => Frame(cs[i], n))
  }

  lemma FramesConcat(a: seq<Rgb>, b: seq<Rgb>, n: nat)
    ensures Frames(a + b, n) == Frames(a, n) + Frames(b, n)
  {
  }

  /** The NeoPixel strip: its pixel buffer and the frames pushed to the LEDs so far. */
  class Strip {
    const pixels: array<Rgb>
    var frames: seq<seq<Rgb>>

    constructor (n: nat)
      ensures pixels.Length == n && fresh(pixels) && frames == []
      ensures pixels[..] == Frame(Black, n)
    {
      pixels := new Rgb[n](_ => Black);
      frames := [];
    }

    /** `fill`: every pixel of the buffer takes colour c. */
    method Fill(c: Rgb)
      modifies pixels
      ensures pixels[..] == Frame(c, pixels.Length)
    {
      var i := 0;
      while i < pixels.Length
        invariant 0 <= i <= pixels.Length
        invariant forall k :: 0 <= k < i ==> pixels[k] == c
      {
        pixels[i] := c;
        i := i + 1;
      }
    }

    /** `write`: push the buffer to the LEDs. */
    method Write()
      modifies this
      ensures frames == old(frames) + [pixels[..]]
    {
      frames := frames + [pixels[..]];
    }
  }

  /** `set_color`: show one colour on every pixel. */
  method SetColor(strip: Strip, c: Rgb)
    modifies strip, strip.pixels
    ensures strip.pixels[..] == Frame(c, strip.pixels.Length)
    ensures strip.frames == old(strip.frames) + [Frame(c, strip.pixels.Length)]
  {
    strip.Fill(c);
    strip.Write();
  }

  /** `setup`: volume 5, mute off, wake time 20, in that order. */
  method Setup(sensor: Sensor)
    modifies sensor.i2c
    ensures sensor.i2c != null ==> sensor.i2c.State() == AfterSetup(old(sensor.i2c.State()), sensor.addr)
  {
    sensor.SetVolume(5);
    sensor.SetMuteMode(0);
    sensor.SetWakeTime(20);
  }

  /** `get_cmd_id`: the polled id, or None when the sensor reports 0. */
  method GetCmdId(sensor: Sensor) returns (id: Option<int>)
    modifies sensor.i2c
    ensures sensor.i2c == null ==> id == None
    ensures sensor.i2c != null ==> id == Polls(old(sensor.i2c.State()), sensor.addr, 1)[0]
    ensures id.Some? ==> 0 < id.value < 0x100
    ensures sensor.i2c != null ==> sensor.i2c.State() == old(sensor.i2c.State()).AfterRead()
  {
    var raw := sensor.GetCmdId();
    if raw != 0 {
      id := Some(raw);
    } else {
      id := None;
    }
  }

  /** The body of the main loop after the poll: the three `if`s, each rendering through `set_color`. */
  method Dispatch(strip: Strip, st: LightState, cmd: Option<int>) returns (next: LightState)
    modifies strip, strip.pixels
    ensures next == Step(st, cmd).state
    ensures strip.frames == old(strip.frames) + Frames(Step(st, cmd).renders, strip.pixels.Length)
    ensures Step(st, cmd).renders == [] ==> strip.pixels[..] == old(strip.pixels[..])
    ensures Step(st, cmd).renders != [] ==> strip.pixels[..] == Frame(Step(st, cmd).renders[0], strip.pixels.Length)
  {
    var lightOn, lastColor := st.lightOn, st.lastColor;
    if cmd.Some? {
      var id := cmd.value;
      if id == TurnOnCommand {
        lightOn := true;
        if lastColor.None? {
          SetColor(strip, Gray);
        } else {
          SetColor(strip, lastColor.value);
        }
      }
      if id == TurnOffCommand {
        lightOn := false;
        SetColor(strip, Black);
      }
      if id in ColorCommands && lightOn {
        var color := ColorCommands[id].color;
        lastColor := Some(color);
        SetColor(strip, color);
      }
    }
    next := LightState(lightOn, lastColor);
  }

  /**
   * The start of the script: a strip of `NEOPIXEL_NUMBER` pixels, the sensor at
   * the default address on the given bus (null when the bus could not be
   * constructed), then `setup`.
   */
  method Start(bus: Bus?) returns (sensor: Sensor, strip: Strip)
    modifies bus
    ensures fresh(strip) && fresh(strip.pixels) && strip.pixels.Length == NeopixelNumber && strip.frames == []
    ensures sensor.addr == DefaultAddr && sensor.i2c == bus
    ensures bus != null ==> bus.State() == AfterSetup(old(bus.State()), DefaultAddr)
  {
    strip := new Strip(NeopixelNumber);
    sensor := new Sensor(bus);
    Setup(sensor);
  }

  /** One iteration of the main loop: poll, react, then sleep for the polling interval. */
  method Iteration(sensor: Sensor, strip: Strip, clock: Clock, st: LightState) returns (cmd: Option<int>, next: LightState)
    modifies sensor.i2c, strip, strip.pixels, clock
    ensures sensor.i2c == null ==> cmd == None
    ensures sensor.i2c != null ==> cmd == Polls(old(sensor.i2c.State()), sensor.addr, 1)[0]
    ensures sensor.i2c != null ==> sensor.i2c.State() == old(sensor.i2c.State()).AfterRead()
    ensures next == Step(st, cmd).state
    ensures strip.frames == old(strip.frames) + Frames(Step(st, cmd).renders, strip.pixels.Length)
    ensures Step(st, cmd).renders == [] ==> strip.pixels[..] == old(strip.pixels[..])
    ensures Step(st, cmd).renders != [] ==> strip.pixels[..] == Frame(Step(st, cmd).renders[0], strip.pixels.Length)
    ensures clock.naps == old(clock.naps) + [SleepSeconds]
  {
    cmd := GetCmdId(sensor);
    next := Dispatch(strip, st, cmd);
    clock.Sleep(SleepSeconds);
  }

  /** What stays fixed while the main loop runs: the bus, strip and clock it starts from, and how many rounds it makes. */
  datatype LoopStart = LoopStart(bus: BusState, addr: int, total: nat,
                                 frames: seq<seq<Rgb>>, naps: seq<nat>, pixels: seq<Rgb>, width: nat)

  /** What the main loop has reached: the bus (None when there is none), the light state, the strip and the clock. */
  datatype LoopView = LoopView(bus: Option<BusState>, st: LightState, frames: seq<seq<Rgb>>, naps: seq<nat>, pixels: seq<Rgb>)

  /** The pixel buffer after rendering `renders` on a strip of n pixels that held `before`. */
  function Showing(before: seq<Rgb>, renders: seq<Rgb>, n: nat): seq<Rgb> {
    if renders == [] then before else Frame(renders[|renders| - 1], n)
  }

  /** Rendering two stretches one after the other leaves the buffer that rendering them joined does. */
  lemma ShowingConcat(before: seq<Rgb>, a: seq<Rgb>, b: seq<Rgb>, n: nat)
    ensures Showing(before, a + b, n) == Showing(Showing(before, a, n), b, n)
  {
    if b == [] {
      assert a + b == a;
    } else {
      assert (a + b)[|a + b| - 1] == b[|b| - 1];
    }
  }

  /**
   * The main loop's progress after the polls `cmds`, as values: the light state,
   * the frames, the pixel buffer and the sleeps follow `Run`, and the ids are
   * the polls of the bus seen so far.
   */
  ghost predicate Progress(from: LoopStart, cmds: seq<Option<int>>, now: LoopView) {
    && now.st == Run(Initial, cmds).state
    && now.frames == from.frames + Frames(Run(Initial, cmds).renders, from.width)
    && now.pixels == Showing(from.pixels, Run(Initial, cmds).renders, from.width)
    && now.naps == from.naps + Repeat(SleepSeconds, |cmds|)
    && (now.bus.None? ==> cmds == Repeat(None, |cmds|))
    && (now.bus.Some? ==> Polled(from.bus, now.bus.value, from.addr, cmds, from.total))
  }

  /** One iteration of the loop (poll, step, sleep) keeps its progress. */
  lemma ProgressStep(from: LoopStart, cmds: seq<Option<int>>, now: LoopView, cmd: Option<int>, next: LoopView)
    requires Progress(from, cmds, now) && |cmds| < from.total
    requires now.bus.None? ==> cmd == None && next.bus == None
    requires now.bus.Some? ==> cmd == Polls(now.bus.value, from.addr, 1)[0] && next.bus == Some(now.bus.value.AfterRead())
    requires next.st == Step(now.st, cmd).state
    requires next.frames == now.frames + Frames(Step(now.st, cmd).renders, from.width)
    requires next.pixels == Showing(now.pixels, Step(now.st, cmd).renders, from.width)
    requires next.naps == now.naps + [SleepSeconds]
    ensures Progress(from, cmds + [cmd], next)
  {
    if now.bus.Some? {
      PollsSnoc(from.bus, now.bus.value, from.addr, cmds, from.total);
    }
    RunSnoc(Initial, cmds, cmd);
    RunFramesSnoc(from.frames, cmds, cmd, from.width);
    ShowingConcat(from.pixels, Run(Initial, cmds).renders, Step(now.st, cmd).renders, from.width);
  }

  /** What the driver can observe of the sensor's bus; None when there is none. */
  ghost function BusView(bus: Bus?): Option<BusState>
    reads bus
  {
    if bus == null then None else Some(bus.State())
  }

  /**
   * The first `rounds` iterations of the main loop, from `light_on = False` and
   * `last_color = None`. Returns the polled ids and the final state.
   */
  method MainLoop(sensor: Sensor, strip: Strip, clock: Clock, rounds: nat)
    returns (cmds: seq<Option<int>>, st: LightState)
    modifies sensor.i2c, strip, strip.pixels, clock
    ensures sensor.i2c == null ==> cmds == Repeat(None, rounds)
    ensures sensor.i2c != null ==> cmds == Polls(old(sensor.i2c.State()), sensor.addr, rounds)
    ensures sensor.i2c != null ==> sensor.i2c.State() == AfterReads(old(sensor.i2c.State()), rounds)
    ensures sensor.i2c != null ==> sensor.i2c.log == old(sensor.i2c.log)
    ensures st == Run(Initial, cmds).state && Inv(st)
    ensures strip.frames == old(strip.frames) + Frames(Run(Initial, cmds).renders, strip.pixels.Length)
    ensures clock.naps == old(clock.naps) + Repeat(SleepSeconds, rounds)
    ensures Run(Initial, cmds).renders == [] ==> strip.pixels[..] == old(strip.pixels[..])
    ensures Run(Initial, cmds).renders != [] ==>
              strip.pixels[..] == Frame(Run(Initial, cmds).renders[|Run(Initial, cmds).renders| - 1], strip.pixels.Length)
  {
    st := Initial;
    cmds := [];
    var i := 0;
    ghost var from := LoopStart(if sensor.i2c == null then BusState(map[], [], []) else sensor.i2c.State(), sensor.addr, rounds,
                                strip.frames, clock.naps, strip.pixels[..], strip.pixels.Length);
    while i < rounds
      invariant 0 <= i <= rounds && |cmds| == i
      invariant Progress(from, cmds, LoopView(BusView(sensor.i2c), st, strip.frames, clock.naps, strip.pixels[..]))
    {
      ghost var now := LoopView(BusView(sensor.i2c), st, strip.frames, clock.naps, strip.pixels[..]);
      var cmd;
      cmd, st := Iteration(sensor, strip, clock, st);
      ProgressStep(from, cmds, now, cmd, LoopView(BusView(sensor.i2c), st, strip.frames, clock.naps, strip.pixels[..]));
      cmds := cmds + [cmd];
      i := i + 1;
    }
    RunKeepsInv(Initial, cmds);
  }

}
