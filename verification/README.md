# SSD1331 driver core in Dafny

A model of the framebuffer and command-sequencing core of the `ssd1331` Rust
driver for a 96x64 RGB565 OLED controller. It has two components.

- `Ssd1331` (src/display.rs) owns a 12,288-byte frame buffer and a rotation.
  - `set_pixel` maps logical (x, y) to a byte offset and stores the colour
    high byte first.
  - `init`, `set_rotation`, `set_draw_area` and `flush` send ordered command
    sequences, and `flush` finishes with one data write of the buffer.
  - The graphics `draw` adapter drops pixels with a negative coordinate and
    stores the rest.
- `Properties` (src/properties.rs) keeps only a rotation and the bus. It sends
  the same bring-up and draw-window commands and streams caller bytes with
  `draw`. Every error becomes `()`.

Files:

- `controller.dfy` (module `Controller`) holds the shared vocabulary:
  - machine integer ranges, `Rotation`, and the `Command` set as opaque values;
  - the bus, modelled as a log of completed `Event`s (`Cmd(command)`, `DcHigh`,
    `Write(bytes)`) plus a failure oracle;
  - `Run`, the "stop at the first `?` failure" chain.
- `display.dfy` (module `Display`) models src/display.rs.
- `properties.dfy` (module `Props`) models src/properties.rs.
- `agreement.dfy` relates the two components.

The failure oracle works like this. `Bus.faults` maps attempt numbers to an
error kind, and the k-th bus operation ever attempted fails when k is a key.
A failed operation is not logged. A command send can fail on the DC pin or on
the SPI write, so for commands the oracle picks the reported error. Raising DC
can only fail as `Pin`, and the data write can only fail as `Comm`. Every
fallible operation is stated as a replay of a reference event list through
`Run`. `RunOutcome` turns that into two facts: success exactly when none of the
attempts is a fault, and a strict prefix of the list in the log otherwise.

Points where the code and its documentation differ (the model follows the code):

- The doc comment of `set_pixel` says a non-zero value is "on". In fact the
  16-bit value is stored verbatim as two bytes.
- The same comment says out-of-bounds coordinates are a no-op. For Rotate90 and
  Rotate270 only y is checked as a coordinate (`y < 96`); x is limited only by
  the byte-index check, which still applies. An `x >= 64` with a small `y` is
  therefore still written, into a later buffer row. `Display.QuarterTurnOverflow` shows that
  (64, 0) lands exactly where (0, 1) does. Row 96 is always dropped, and on
  row 95 only `x < 64` is written (the byte-index check refuses the rest).
- For Rotate0 and Rotate180 the two checks (`x < 96`, and byte index below
  12287) together accept exactly `x < 96 && y < 64`.

## Model

| member | source | states |
|---|---|---|
| Controller.Run | src/display.rs:221-241 | running a `?`-chained event list logs exactly the events before the first faulting attempt, succeeds iff no attempt faults, and on failure reports that attempt's error |
| Controller.RunOutcome | src/display.rs:221-241 | a `?`-chained sequence succeeds iff none of its attempts faults; success logs every event, failure logs a proper prefix |
| Controller.RemapFor | src/display.rs:296-339 | the remap for each rotation always uses 65k colour, sets the remap flag exactly for 90/180, sets the flip flag exactly for 180/270, and increments vertically exactly for 90/270, which fixes all four tuples |
| Controller.RemapInjective | src/display.rs:299-336 | distinct rotations send distinct remap commands |
| Controller.LogicalSize | src/display.rs:284-293 | the logical size is (96, 64) for 0/180 and (64, 96) for 90/270, with area 96*64 in both cases |
| Display.New | src/display.rs:121-128 | a new driver holds 12,288 zero bytes (2*96*64), the given rotation, and an untouched bus |
| Display.Clear | src/display.rs:138-140 | every buffer byte becomes zero; rotation and bus are unchanged |
| Display.ClearIsNew | src/display.rs:121-140 | clearing gives the same state as a fresh driver, and clearing twice is clearing once |
| Display.Dimensions | src/display.rs:284-293 | (64, 96) exactly for quarter turns and (96, 64) otherwise, as the doc-tests assert |
| Display.GetRotation | src/display.rs:341-344 | `rotation()` returns the rotation whose logical size `dimensions()` reports, a quarter turn exactly when that size is (64, 96) |
| Display.SetPixel | src/display.rs:191-218 | if the rotation's bounds refuse the pixel, nothing changes; otherwise the bytes at 2*(stride*y+x) and the next one get the value's high and low bytes, and no other byte changes |
| Display.SplitJoin | src/display.rs:212-217 | the masked/shifted high byte times 256 plus the masked low byte is the original 16-bit value |
| Display.SetPixelReadBack | src/display.rs:208-217 | an accepted pixel is in bounds and reads back as the value written |
| Display.AcceptsVersusDimensions | src/display.rs:192-210 | for 0/180 a pixel is written iff it lies inside the logical dimensions; for 90/270 every on-screen pixel is written |
| Display.QuarterTurnOverflow | src/display.rs:200-206 | for 90/270, x = 64 on row 0 is outside the logical width but is written, at the same place as (0, 1); row 96 is always dropped; on row 95, x = 63 is written and x = 64 is not |
| Display.OffsetsDisjoint | src/display.rs:192-206 | distinct on-screen pixels occupy disjoint byte pairs |
| Display.SetPixelCommutes | src/display.rs:191-218 | writes to two different on-screen pixels can be swapped without changing the result |
| Display.SetDrawArea | src/display.rs:178-187 | the driver sends ColumnAddress(start.x, end.x-1) and then RowAddress(start.y, end.y-1), stopping at the first failure, and leaves the buffer and rotation alone |
| Display.Flush | src/display.rs:164-175 | the buffer and rotation are never changed; the bus traffic is the full-window commands, DC high, and one write of the buffer, stopping at the first failure |
| Display.FlushProtocol | src/display.rs:164-175 | flush succeeds iff its four operations do; it then logs ColumnAddress(0,95), RowAddress(0,63), DcHigh, Write(buffer), whatever the rotation; otherwise it logs a proper prefix |
| Display.FlushErrors | src/display.rs:170-172 | a failure while raising DC is reported as a pin error after the two window commands; a failed data write is a communication error after DC high |
| Display.SetRotation | src/display.rs:296-339 | the rotation is stored even if the send fails; exactly one remap command for the new rotation is attempted |
| Display.SetRotationProtocol | src/display.rs:296-344 | `rotation()` and `dimensions()` reflect the new rotation at once; the remap command is logged iff its send succeeds, and nothing is logged otherwise |
| Display.Init | src/display.rs:221-241 | init leaves the buffer and the rotation unchanged |
| Display.InitReplaysBringUp | src/display.rs:221-241 | init's bus traffic and outcome are those of the twelve-command reference bring-up for the current rotation |
| Display.InitProtocol | src/display.rs:221-241 | init succeeds iff all twelve sends do, logging the bring-up in order; a failure leaves a proper prefix of it |
| Display.Draw | src/display.rs:363-381 | after drawing, each byte holds the colour byte of the last non-negative pixel that set_pixel stores over it, or its old value; rotation and bus are unchanged |
| Display.RedPixelFrame | src/display.rs:121-218 | a red pixel at the origin of a fresh Rotate0 display, flushed over a fault-free bus, sends the window commands, DC high, and a 12,288-byte frame starting 0xF8 0x00 with zeros after it |
| Props.New | src/properties.rs:19-25 | the container stores the given rotation and bus |
| Props.GetRotation | src/properties.rs:125-128 | `rotation()` returns the rotation whose logical size `dimensions()` reports, a quarter turn exactly when that size is (64, 96) |
| Props.RotationIsLastStored | src/properties.rs:125-132 | `rotation()` returns what `new` or `set_rotation` stored last, even after a failed send; `init_column_mode` and `draw` keep it |
| Props.Dimensions | src/properties.rs:114-123 | (64, 96) exactly for quarter turns and (96, 64) otherwise, as the doc-tests assert |
| Props.SetRotation | src/properties.rs:131-174 | the rotation is assigned before the send; exactly one remap command for it is attempted, and any error becomes `()` |
| Props.InitColumnMode | src/properties.rs:29-49 | the bring-up leaves the stored rotation unchanged |
| Props.InitColumnModeReplaysBringUp | src/properties.rs:29-49 | the bus traffic is the twelve-command reference bring-up with this rotation's remap in sixth place, and the outcome is its collapsed outcome |
| Props.InitColumnModeProtocol | src/properties.rs:29-49 | the bring-up succeeds iff all twelve sends do; a failure leaves a proper prefix in the log |
| Props.SetDrawArea | src/properties.rs:54-59 | the container sends ColumnAddress(start.x, end.x-1) and then RowAddress(start.y, end.y-1), stopping at the first failure, with errors collapsed |
| Props.Draw | src/properties.rs:64-71 | the traffic is DC high and then one write of the caller's bytes, stopping at the first failure, with errors collapsed |
| Props.DrawProtocol | src/properties.rs:64-71 | draw sends no command; it succeeds iff both operations do and then logs DcHigh, Write(buffer) verbatim; after a failure at most DcHigh was logged |
| Agreement.SameBringUp | src/properties.rs:29-49 | `init_column_mode` and the driver's `init` give the same bus traffic and the same success for the same bus and rotation |
| Agreement.FlushIsWindowThenDraw | src/display.rs:164-175 | flush has the same traffic as the container's full-panel `set_draw_area` followed by its `draw` of the framebuffer |

## Left out

- Byte encoding of commands (opcodes, packed operand bytes, DC low inside a command send): src/command.rs is not part of this model. Commands are opaque values, and `ColorMode` and `VcomhLevel` list only the variants the core uses.
- `reset` (src/display.rs:143-159): three pin writes with delays; timing and the reset pin are outside the model.
- `release` (src/display.rs:131-133): only an ownership move.
- The HAL's generic error payloads are dropped. `Error` keeps only the Comm/Pin distinction, and the SPI and pin devices are replaced by the bus log and failure oracle.
- embedded-graphics types: a `Pixel` is two `i32` coordinates and a raw 16-bit colour (`bv16`). The `Rgb565` to `RawU16` conversion is not modelled.
- examples/graphics.rs and examples/bmp.rs: board bring-up and rendering by an external library.
- Display.SetPixel: the whole byte index `(y * stride + x) * 2` is computed with unbounded integers, so no `usize` wrap-around is modelled. On a 32-bit target the source can overflow in `+ x` and `* 2`. For Rotate90/270, x is never bounds-checked as a coordinate: (2^31 - 64, 1) gives index 2^32, which wraps to 0 in release builds (debug builds panic), while the model drops that pixel. For Rotate0/180, `* 2` overflows once y is about 22 million, before `y * 96` does. `y * 64` itself cannot overflow, because `y < 96` is checked first.
- Display.SetDrawArea: requires `end.0 >= 1 && end.1 >= 1`. The source computes `end - 1` on `u8`, which panics in debug builds or wraps in release builds; the wrap-around is not modelled. Like the source, the model makes no `start <= end` check.
- Props.SetDrawArea: the same `end >= 1` precondition, for the same reason.
