# DF2301Q voice sensor and NeoPixel light sketch, modelled in Dafny

A MicroPython sketch reads command ids from a DF2301Q voice-recognition chip
over I2C and switches a strip of five NeoPixels on, off or to one of eight
colours. This project models its two parts and proves what they promise.

- **The register driver** (`DFRobot_DF2301Q_I2C`, module `DF2301Q`, file
  `df2301q.dfy`). It is a class `Sensor` with two constant fields: the device
  address, 0x64 by default, and the bus. Every public method is a one-byte
  register read or write at that address. Failures never reach the caller:
  a failed read gives 0, and a failed write is dropped. If the bus could not
  be constructed, the bus field is `null`. Then every read gives 0 and every
  write changes nothing, because the Python object never gets its `_i2c`
  attribute and every later call raises inside the `try`. The value mappings
  are exact:
  - `set_wake_time` sends `w & 0xFF`, with Python's `&` defined bit by bit in
    `Bits.BitAnd` and proved to equal `w mod 256`;
  - `set_mute_mode` sends `int(bool(mode))`;
  - `set_volume` and `play_by_cmdid` pass their value through.
- **The bus** (module `I2C`, file `i2c.dfy`). `machine.I2C` is foreign code,
  so it is an abstract class `Bus`. It holds a register store keyed by
  (device address, register), a log of completed writes, and a schedule with
  one `Tick` per transaction. A tick says whether that transaction raises,
  and which registers the devices rewrote on their own just before it. This
  is how the voice chip stores a newly recognised command id in its CMDID
  register between two polls. Once the schedule is used up, every
  transaction succeeds and no device acts. A read of a register no device
  answers for also fails. A payload of several bytes occupies consecutive
  registers. `BusState` is the same thing as a value, so that lemmas can talk
  about it. The blocking `sleep` is a class `Clock` that records the
  durations slept.
- **The light sketch** (`neopixel.py`, module `NeopixelSketch`, file
  `neopixel.dfy`).
  - The command table and the two special ids, 103 (on) and 104 (off).
  - `setup`, `get_cmd_id` and `set_color`.
  - The body of the polling loop as a pure transition `Step` over
    (`light_on`, `last_color`). It is written as the source's three
    independent `if`s, with the fold `Run` over finitely many polls.
  - The imperative loop itself: `Dispatch`, `Iteration` and `MainLoop`. They
    drive a `Strip` class whose pixel buffer is an array and which records
    every frame pushed to the LEDs.

## Model

| member | source | states |
|---|---|---|
| `Bits.BitAnd` | lib/DFRobot_DF2301Q_I2C.py:97 | Python's `x & mask` for a non-negative mask never exceeds the mask |
| `Bits.BitAndLowMask` | lib/DFRobot_DF2301Q_I2C.py:97 | masking with k low one-bits keeps x modulo 2^k, for negative x too (two's-complement semantics) |
| `Bits.LowByte` | lib/DFRobot_DF2301Q_I2C.py:12 | `x & 0xFF` is `x mod 256` |
| `DF2301Q.WakeTimeMasking` | lib/DFRobot_DF2301Q_I2C.py:91-98 | the wake-time byte is `w mod 256`, a value in 0..255 passes unchanged, and masking twice is masking once |
| `DF2301Q.WakeTimeByte` | lib/DFRobot_DF2301Q_I2C.py:97 | definition only: the byte sent is `int(w) & 0xFF`, through `Bits.BitAnd`; its value is stated by `WakeTimeMasking` |
| `DF2301Q.Payload` | lib/DFRobot_DF2301Q_I2C.py:43-44 | definition only: an int is wrapped as a one-byte list, a list is sent as it is |
| `DF2301Q.Truthy` | lib/DFRobot_DF2301Q_I2C.py:114 | definition only: `bool(mode)` of an int is `mode != 0` |
| `DF2301Q.MuteByte` | lib/DFRobot_DF2301Q_I2C.py:108-114 | the mute byte is 0 or 1, and it is 1 exactly when the mode is truthy (non-zero) |
| `DF2301Q.ReadRegValue` | lib/DFRobot_DF2301Q_I2C.py:51-66 | `_read_reg` gives 0 when the read raises or the register does not answer, and otherwise the register's byte as the read finds it (the devices' own updates included), so a failure cannot be told from a stored 0 |
| `DF2301Q.DroppedWrite` | lib/DFRobot_DF2301Q_I2C.py:46-49 | a failed write has exactly the effect of a failed read: the write log is unchanged, the registers take only the devices' own updates (none on a quiet bus), and the schedule moves on by one transaction |
| `DF2301Q.WakeTimeRoundTrip` | lib/DFRobot_DF2301Q_I2C.py:75-98 | when both transactions succeed and the chip does not rewrite its wake time in between, `get_wake_time` after `set_wake_time(w)` returns `w & 0xFF` |
| `DF2301Q.Sensor.constructor` | lib/DFRobot_DF2301Q_I2C.py:21-34 | the address (default 0x64) and the bus, null when its construction raised, are fixed for the object's life |
| `DF2301Q.Sensor.WriteReg` | lib/DFRobot_DF2301Q_I2C.py:36-49 | one write of the payload at the sensor's address, an int wrapped as one byte; a failure is swallowed, and with no bus nothing changes |
| `DF2301Q.Sensor.ReadReg` | lib/DFRobot_DF2301Q_I2C.py:51-66 | a one-byte read at the sensor's address returning `ReadRegValue`; 0 with no bus; the registers take only the devices' own updates, the log is untouched, and the schedule moves on by one transaction |
| `DF2301Q.Sensor.GetCmdId` | lib/DFRobot_DF2301Q_I2C.py:68-73 | reads register 0x02 |
| `DF2301Q.Sensor.GetWakeTime` | lib/DFRobot_DF2301Q_I2C.py:75-80 | reads register 0x06 |
| `DF2301Q.Sensor.PlayByCmdId` | lib/DFRobot_DF2301Q_I2C.py:82-89 | writes the id unchanged to register 0x03, then sleeps exactly once for duration 1 |
| `DF2301Q.Sensor.SetWakeTime` | lib/DFRobot_DF2301Q_I2C.py:91-98 | writes `w mod 256` to register 0x06 |
| `DF2301Q.Sensor.SetVolume` | lib/DFRobot_DF2301Q_I2C.py:100-106 | writes the volume unchanged to register 0x05, with no 1..7 check |
| `DF2301Q.Sensor.SetMuteMode` | lib/DFRobot_DF2301Q_I2C.py:108-114 | writes 1 for a truthy mode and 0 otherwise to register 0x04 |
| `I2C.Store` | lib/DFRobot_DF2301Q_I2C.py:47 | after a write, register `reg + i` holds byte i of the payload and every other register is unchanged |
| `I2C.Load` | lib/DFRobot_DF2301Q_I2C.py:58 | a read succeeds exactly when all requested registers exist, and it returns their bytes in order |
| `I2C.ReadAfterWrite` | lib/DFRobot_DF2301Q_I2C.py:47-58 | reading back the registers just written returns the payload, unless a device rewrote them in between |
| `I2C.HealthyAfterWrite` | lib/DFRobot_DF2301Q_I2C.py:46-49 | on a bus with no pending faults the next write succeeds, and the bus stays fault-free after a write and after a read; on a bus that is also quiet the registers are the store and stay so |
| `I2C.Bus.Advance` | lib/DFRobot_DF2301Q_I2C.py:47-58 | at every transaction the devices' own updates land in the store and the schedule moves on; whether the call raises is the schedule's |
| `I2C.Bus.WriteToMem` | lib/DFRobot_DF2301Q_I2C.py:47 | success is decided by the schedule; on success the store and the log take the write, on top of the devices' updates |
| `I2C.Bus.ReadFromMem` | lib/DFRobot_DF2301Q_I2C.py:58 | returns the requested bytes as the devices left them, or None when the schedule says the call raises; nothing is logged |
| `I2C.Clock.Sleep` | lib/DFRobot_DF2301Q_I2C.py:89 | records one sleep of the given duration |
| `NeopixelSketch.Step` | neopixel.py:74-99 | 103 turns the light on and renders the remembered colour or (100,100,100); 104 turns it off, renders black and keeps the colour; a table id renders and remembers its colour only while the light is on; no id, or any other id, changes nothing and renders nothing; at most one render per step |
| `NeopixelSketch.Run` | neopixel.py:73-101 | folding the step over n polls renders at most n times |
| `NeopixelSketch.TurnOnRule` | neopixel.py:82-88 | definition only: 103 switches the light on and renders the remembered colour, or (100,100,100) when there is none |
| `NeopixelSketch.TurnOffRule` | neopixel.py:90-93 | definition only: 104 switches the light off and renders black |
| `NeopixelSketch.ColorRule` | neopixel.py:95-99 | definition only: a table id, while the light is on, becomes the remembered colour and is rendered |
| `NeopixelSketch.Inv` | neopixel.py:68-98 | definition only: `last_color` starts as None and is only ever set to a table colour |
| `NeopixelSketch.PaletteInRange` | neopixel.py:17-26 | every colour of the table has all channels in 0..255 |
| `NeopixelSketch.StepKeepsInv` | neopixel.py:82-99 | a step keeps the remembered colour None or a table colour, and renders only colours with channels in 0..255 |
| `NeopixelSketch.RunKeepsInv` | neopixel.py:68-101 | the same holds after any number of steps |
| `NeopixelSketch.RunConcat` | neopixel.py:73-101 | running two stretches of polls one after the other equals running them joined |
| `NeopixelSketch.RunSnoc` | neopixel.py:73-101 | one more poll adds exactly one step to the fold |
| `NeopixelSketch.SilenceChangesNothing` | neopixel.py:74-76 | polls that saw no command leave the state unchanged and render nothing |
| `NeopixelSketch.ExampleSession` | neopixel.py:68-99 | from the start state, the ids on, orange, off, orange give gray, then orange, then black, and the last orange is ignored because the light is off; orange is still remembered |
| `NeopixelSketch.Polls` | neopixel.py:40-49 | n polls give n ids, each None (the sensor reported 0) or an id in 1..255 |
| `NeopixelSketch.CommandIdOf` | neopixel.py:48-49 | a reported 0 means no command; any other byte is the id, in 1..255 |
| `NeopixelSketch.AfterReads` | neopixel.py:74 | polling logs no write, and n polls use up n transactions of the schedule |
| `NeopixelSketch.QuietPollsKeepRegisters` | neopixel.py:74 | when no device acts, polling leaves every register as it was |
| `NeopixelSketch.FailingBusPollsNothing` | lib/DFRobot_DF2301Q_I2C.py:57-64 | while every read raises, every poll sees no command |
| `NeopixelSketch.RawOf` | neopixel.py:46-49 | the byte the chip stores for an id maps back to that id through `get_cmd_id` (0 for no command) |
| `NeopixelSketch.PollsReachEverything` | neopixel.py:40-49 | every sequence of ids in 1..255 or None is what the polls return on some healthy bus, whatever the registers held: the one where the chip hears those ids, one before each poll |
| `NeopixelSketch.SessionReachesEverything` | neopixel.py:64-74 | after `setup`'s three writes go through, the polls of the main loop can return any sequence of ids, so the loop can reach every `Run` |
| `NeopixelSketch.SetupOnHealthyBus` | neopixel.py:29-37 | on a healthy bus `setup` logs exactly volume 5, mute 0 and wake time 20, in that order, and when no device acts the registers hold those values |
| `NeopixelSketch.AfterSetup` | neopixel.py:35-37 | definition only: the bus after the writes of volume 5, mute `int(bool(0))` and wake time 20, in that order |
| `NeopixelSketch.Setup` | neopixel.py:29-37 | the bus goes through the three writes of `setup` in order |
| `NeopixelSketch.GetCmdId` | neopixel.py:40-49 | None when the sensor reports 0 or there is no bus, otherwise the id read, in 1..255 |
| `NeopixelSketch.Strip.Fill` | neopixel.py:59 | every pixel of the buffer takes the colour |
| `NeopixelSketch.Strip.constructor` | neopixel.py:64 | a fresh buffer of n pixels, all off, and no frame pushed yet |
| `NeopixelSketch.Strip.Write` | neopixel.py:60 | the buffer is pushed to the LEDs as one frame |
| `NeopixelSketch.SetColor` | neopixel.py:52-60 | the strip shows one more frame, with every pixel set to the colour |
| `NeopixelSketch.Dispatch` | neopixel.py:76-99 | the three `if`s, rendering through `set_color`, give exactly `Step`'s new state and frames; the pixel buffer holds the rendered colour on every pixel, or is unchanged when nothing is rendered |
| `NeopixelSketch.Start` | neopixel.py:64-66 | a fresh 5-pixel strip and a sensor at 0x64 on the given bus, after `setup` |
| `NeopixelSketch.Iteration` | neopixel.py:74-101 | one poll, one `Step`'s frames and one sleep of 1; the pixel buffer holds the rendered colour, or is unchanged when nothing is rendered |
| `NeopixelSketch.ProgressStep` | neopixel.py:73-101 | one more iteration (poll, step, sleep) keeps the loop's account: ids are the polls so far, state, frames and pixel buffer follow `Run` of them, one sleep per iteration |
| `NeopixelSketch.ShowingConcat` | neopixel.py:52-60 | the buffer after two stretches of renders is the buffer after them joined: only the last render shows |
| `NeopixelSketch.MainLoop` | neopixel.py:68-101 | after n iterations from the start state: the ids are the n polls of the bus, or all None with no bus; the state is `Run` of them and keeps the invariant; the frames pushed are `Run`'s renders, each filling the whole strip; the pixel buffer shows `Run`'s last render on every pixel, or is as it was when nothing was rendered; n sleeps of 1; the bus went through exactly n reads and no write was logged |

## Left out

- Printing: the error messages of the driver, the "COMMAND ID" line and the greeting have no observable logic.
- The real I2C peripheral, `Pin` and the pin and bus numbers are foreign code. They appear only as a `Bus` object, or null when its construction raised. A transaction that hangs forever is not modelled.
- The NeoPixel driver's bit timing is foreign. A frame is the whole pixel buffer at the moment of `write`.
- `main.py`: its `setup` and `get_cmd_id` are copies of the ones in `neopixel.py`, and its loop only prints and sleeps.
- `MainLoop`: models the first n iterations of the endless `while True` loop, for any n.
- `DF2301Q.Sensor.PlayByCmdId`: the bus log and the clock are separate records, so the order "write, then sleep" is the order of statements in the method, not something its contract states.
- `DF2301Q.Sensor.SetVolume`: the volume must be in 0..255. What `bytearray` does with other ints depends on the platform and is not modelled.
- `DF2301Q.Sensor.PlayByCmdId`: the id must be in 0..255, for the same reason.
- `DF2301Q.Sensor.WriteReg`: a list payload is a sequence of bytes. List elements outside 0..255 are not modelled.
- `DF2301Q.Sensor.SetMuteMode`: the mode is an int, and Python truthiness of other kinds of object is not modelled. The same goes for the `int(...)` conversions of non-int arguments in the other setters.
