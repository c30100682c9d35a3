# PythonBLE dashboards, modelled in Dafny

The PythonBLE scripts are meant to stream readings from an ESP32 over
Bluetooth Low Energy, or from a simulated sine wave, into a Dash chart that
refreshes every 500 ms. Three pieces of sequential logic sit under the BLE, Dash and
threading plumbing. This project models them and proves what they keep:

- **`StreamExample.py`**: a time-windowed buffer. Each tick of
  `generate_data` appends `(current_time, sin value)` to the parallel lists
  `x_data`/`y_data`. It then pops from the front while the oldest time is
  below `current_time - duration`. `update_graph` plots each time as
  `t - now`. Module `StreamExample`, class `SineStream`.
- **`BLEStream.py`**: a count-bounded buffer. `notification_handler`
  decodes each payload with `int.from_bytes(data, 'little')` and appends it
  to `data_points`. It pops the oldest point once the list holds more than
  `duration * (1000 / graph_update_interval)` = 20 points. `update_graph`
  places point i at `i * 0.5 s - duration`. Module `BleStream`, class
  `NotificationBuffer`.
- **`BLEConnect.py`**: the LED console loop. It reads lines until `q`/`Q`,
  writes `00` and `01` as their ASCII bytes and refuses anything else.
  Module `BleConnect`, method `CommandLoop`.
- Both dashboards share the same `update_time_display`: the clock as
  `h時m分s秒.mmm`. This is module `Clock`. Module `Bytes` holds the byte type
  and the ASCII encoding.

Modelling choices:

- Times are whole milliseconds: `duration` is 10000 ms and the chart step
  is 500 ms. The clock reading and the sine value are parameters of each
  step, and the values are opaque (`V`).
- The module-level lists become the fields of one object per script.
- The operator's lines are a parameter of `CommandLoop`. The
  characteristic writes come back as a sequence of payloads.
- Where the input runs out before a quit, `input()` would raise `EOFError`.
  The model ends with `Ending.InputExhausted` instead.
- `update_time_display` takes whole seconds by truncating toward zero
  (`int(t)`). It takes milliseconds from `t % 1`, which floors. For clock
  readings at or after the epoch the caption is exactly the time of day
  (`Clock.BreakdownIsTimeOfDay`). Before the epoch the two roundings
  disagree, and `Clock.PreEpochRounding` shows by how much.
- Each script has one eviction policy: by time in `StreamExample.py`, by
  count in `BLEStream.py`. `BLEStream.py` plots by index, not by time.
- The trim loop pops while the head is expired. It stops at the first
  point inside the window, so it removes exactly the expired points only
  when times are ascending (`StreamExample.TrimIsWindowWhenSorted`).
  Otherwise an expired point can stay behind a newer one
  (`StreamExample.TrimStopsAtFirstFresh`). `time.time()` may step
  backwards, so the ascending order is a hypothesis of these lemmas, not an
  invariant of the class.

## Model

| member | source | states |
|---|---|---|
| `StreamExample.ExpiredCount` | PythonBLE/StreamExample.py:47-51 | the number of points the trim loop pops is at most the list length; every popped time is below the cutoff; the first kept time is at or above it |
| `StreamExample.AtOrAfter` | PythonBLE/StreamExample.py:46-47 | the reference window: never longer than the input, every element at or above the cutoff, and a time is in the window if and only if it is in the input and at or after the cutoff |
| `StreamExample.AtOrAfterAppend` | PythonBLE/StreamExample.py:46-47 | the window of a concatenation is the window of the first part followed by that of the second, so the window keeps arrival order |
| `StreamExample.NewestSurvives` | PythonBLE/StreamExample.py:39-51 | the point appended in a step is never popped in that step, since its time is above `current_time - duration` |
| `StreamExample.StepKeepsWindow` | PythonBLE/StreamExample.py:36-51 | with ascending times and no stored time after the clock reading, a step leaves the times ascending and every kept time (not just the head) in `[t - duration, t]` |
| `StreamExample.TrimIsWindowWhenSorted` | PythonBLE/StreamExample.py:46-51 | on ascending times, trimming the expired prefix leaves exactly the points at or after the cutoff, in order |
| `StreamExample.TrimStopsAtFirstFresh` | PythonBLE/StreamExample.py:49 | the trim removes a prefix only: on times 0, 20 s, 5 s with cutoff 10 s it keeps the expired 5 s point, which the reference window drops |
| `StreamExample.SineStream.constructor` | PythonBLE/StreamExample.py:12-13 | both lists start empty and in lockstep |
| `StreamExample.SineStream.GenerateStep` | PythonBLE/StreamExample.py:35-55 | the new lists are the old ones plus the new point, minus exactly the expired prefix, popped pairwise; lengths stay equal; the new point is last in both lists; the head is inside the window; with a clock that does not run backwards, order is kept and every kept time lies in the window |
| `StreamExample.RelativeTimes` | PythonBLE/StreamExample.py:70 | one offset per stored time, in the same order; adding "now" back gives each stored time |
| `StreamExample.RelativeTimesOrder` | PythonBLE/StreamExample.py:70 | the offsets are ascending if and only if the stored times are |
| `StreamExample.RelativeTimesOnAxis` | PythonBLE/StreamExample.py:70-79 | every offset lies on the axis `[-duration, 0]` if and only if every stored time lies in `[now - duration, now]` |
| `StreamExample.SineStream.Figure` | PythonBLE/StreamExample.py:63-71 | the trace has one x per stored point, each the stored time minus "now", and passes `y_data` through unchanged |
| `Clock.WholeSeconds` | PythonBLE/StreamExample.py:101 | `int(t)` on milliseconds: the whole seconds truncated toward zero, off from the reading by less than one second and toward zero |
| `Clock.Breakdown` | PythonBLE/StreamExample.py:101-106 | hours lie in 0..23, minutes and seconds in 0..59, milliseconds in 0..999 |
| `Clock.BreakdownRecombines` | PythonBLE/StreamExample.py:101-103 | `hours*3600 + minutes*60 + seconds == int(t) mod 86400` for every clock reading |
| `Clock.BreakdownIsTimeOfDay` | PythonBLE/BLEStream.py:111-116 | at or after the epoch, hours, minutes, seconds and milliseconds recombine to the reading modulo one day |
| `Clock.PreEpochRounding` | PythonBLE/BLEStream.py:111-116 | before the epoch, 1.5 s prior reads 23:59:59.500 while the time of day is 23:59:58.500 |
| `Clock.Decimal` | PythonBLE/StreamExample.py:108 | `f"{n}"` is a non-empty run of decimal digits without a leading zero; for 0 it is exactly `"0"` |
| `Clock.DecimalRoundTrip` | PythonBLE/BLEStream.py:118 | the digits of `f"{n}"` read back as n |
| `Clock.Pad3` | PythonBLE/StreamExample.py:106-108 | `f"{ms:03d}"` is exactly three decimal digits |
| `Clock.Pad3RoundTrip` | PythonBLE/BLEStream.py:116-118 | the three padded digits read back as the milliseconds |
| `Clock.Fields` | PythonBLE/StreamExample.py:108 | the text after the prefix starts with the hours' digits and `時` and ends with `.` and the three padded millisecond digits |
| `Clock.Display` | PythonBLE/BLEStream.py:118-120 | the caption starts with `Current Time: ` and ends with `.` and the three padded millisecond digits |
| `Clock.DisplayMillis` | PythonBLE/StreamExample.py:105-110 | the caption's last three characters are digits denoting the milliseconds |
| `Clock.DisplayDeterminesTimeOfDay` | PythonBLE/BLEStream.py:111-120 | two readings with the same caption have the same hours, minutes, seconds and milliseconds: the caption is unambiguous |
| `Bytes.EncodeAscii` | PythonBLE/BLEConnect.py:36 | `str.encode()` on ASCII: one byte per character, equal to its code point |
| `Bytes.AsciiRoundTrip` | PythonBLE/BLEConnect.py:36 | decoding the encoded bytes gives the command back |
| `BleStream.FromBytesLittle` | PythonBLE/BLEStream.py:40 | the decoded value lies in `[0, 256^len(data))` |
| `BleStream.FromBytesIsWeightedSum` | PythonBLE/BLEStream.py:40 | the decoded value is the sum of `data[i] * 256^i`; the empty payload gives 0 |
| `BleStream.ToBytesLittle` | PythonBLE/BLEStream.py:40 | the inverse of the decoding, used only by the round-trip lemmas: it yields exactly n bytes |
| `BleStream.DecodeEncode` | PythonBLE/BLEStream.py:40 | encoding a value below `256^n` in n bytes and decoding gives the value back |
| `BleStream.EncodeDecode` | PythonBLE/BLEStream.py:40 | re-encoding a decoded payload in `len(data)` bytes gives the payload back |
| `BleStream.Notified` | PythonBLE/BLEStream.py:44-48 | after a notification the list is a suffix of the old list plus the value; at most one element, the oldest, is removed; the value is last; below 20 points nothing is removed, and at 20 or more the oldest is popped; at or under 20 before means at or under 20 after |
| `BleStream.NotifiedSlides` | PythonBLE/BLEStream.py:44-48 | a notification turns the latest 20 values of a history into the latest 20 values of the history plus the new one |
| `BleStream.Received` | PythonBLE/BLEStream.py:23-48 | the list the handler builds from empty over a run of payloads never holds more than 20 points, and after any payload its last point is that payload's value |
| `BleStream.ReceivedIsMostRecent` | PythonBLE/BLEStream.py:23-48 | from the empty list, after any run of notifications the list is exactly the last 20 decoded values (all of them when fewer) in arrival order, so it never exceeds 20 |
| `BleStream.NotificationBuffer.constructor` | PythonBLE/BLEStream.py:23 | the list starts empty, within capacity |
| `BleStream.NotificationBuffer.NotificationHandler` | PythonBLE/BLEStream.py:38-49 | the new list is the old one with the decoded value appended and, past 20 points, the oldest popped; the value is last; capacity is kept |
| `BleStream.XPositions` | PythonBLE/BLEStream.py:78 | one position per point, the first at `-duration` |
| `BleStream.XPositionsIncreasing` | PythonBLE/BLEStream.py:78 | positions strictly increase, 500 ms apart |
| `BleStream.XPositionsOnAxis` | PythonBLE/BLEStream.py:78-91 | every position lies on the axis `[-duration, 0]` and strictly left of 0 if and only if the list holds at most 20 points |
| `BleStream.NotificationBuffer.Figure` | PythonBLE/BLEStream.py:76-83 | one x position per stored point, `data_points` passed through unchanged; within the 20-point capacity every position lies on the axis, left of 0 |
| `BleConnect.IsQuit` | PythonBLE/BLEConnect.py:32 | a line quits if and only if its lower-cased form is `"q"` |
| `BleConnect.IsLedCommand` | PythonBLE/BLEConnect.py:34 | a line is an LED command if and only if it is exactly two characters, `0` then `0` or `1`, with no trimming; such a line is ASCII |
| `BleConnect.FirstQuit` | PythonBLE/BLEConnect.py:29-33 | index of the first `q`/`Q` line (or the line count): no earlier line quits |
| `BleConnect.LedCommands` | PythonBLE/BLEConnect.py:34 | never longer than the input; a line is selected if and only if it is among the input lines and passes the exact `'00'`/`'01'` test |
| `BleConnect.LedCommandsAppend` | PythonBLE/BLEConnect.py:29-34 | selecting from a concatenation selects from each part in turn, so the commands keep their input order |
| `BleConnect.LedPayload` | PythonBLE/BLEConnect.py:36 | `command.encode()` of an LED command: `"00"` is sent as 0x30 0x30 and `"01"` as 0x30 0x31 |
| `BleConnect.WrittenBeforeQuit` | PythonBLE/BLEConnect.py:29-39 | the writes are exactly the valid commands before the first quit, encoded, in input order |
| `BleConnect.OnlyLedPayloads` | PythonBLE/BLEConnect.py:34-36 | nothing but the two LED payloads is ever written |
| `BleConnect.RefusedLinesIgnored` | PythonBLE/BLEConnect.py:32-39 | a quit line ends the writes; any other non-command line, `" 01"` and `"1"` included, writes nothing and the loop goes on |
| `BleConnect.CommandLoop` | PythonBLE/BLEConnect.py:29-39 | the loop writes exactly the reference payloads, each one of the two LED payloads; it stops at the first quit line, or reports that input ran out |

## Left out

- BLE discovery, connection and notification setup through `bleak`
  (`BLEStream.py` lines 51-70, `BLEConnect.py` lines 15-27 and 41-46). These
  are foreign asynchronous I/O.
- `BLEStream.py` as written never runs its BLE task. Lines 123-126 start
  `threading.Thread(target=main)`, but `main` is an `async def` (line 51),
  so the thread only creates a coroutine that nothing awaits. The scanner
  never runs, `notification_handler` is never registered, and
  `data_points` stays empty. `BLEConnect.py` line 46 runs its `main` with
  `asyncio.run`. Module `BleStream` describes the handler and the chart as
  they would behave if `main` ran under an event loop.
- The daemon threads, the asyncio event loop and `asyncio.Event().wait()`.
  The lists are shared between the producer and the Dash callbacks without
  a lock, and the model treats each step and each callback as atomic.
- The Dash/plotly layout, the figure's axis and styling dictionaries, and
  every `print`. The elapsed-time bookkeeping through `pre` in
  `StreamExample.py`'s `update_graph` only feeds a `print`.
- `time.time()`, `time.sleep(update_interval)` and `np.sin`. The clock
  reading and the sine value are parameters, in whole milliseconds.
- Floating-point arithmetic: seconds as floats, the float comparison
  `len > 20.0`, `int((t % 1) * 1000)` and the float x-positions. All are
  modelled exactly at millisecond resolution, and binary rounding is not
  modelled.
- `BleConnect.IsQuit`: `str.lower()` is modelled for the ASCII letters
  only. Python lowers all of Unicode, but no other character lowers to
  `q`. That fact about the Unicode tables is not proved here.
- `data.decode()` in `BLEConnect.py`'s notification handler prints the
  payload and nothing else. `input()` is a parameter.
