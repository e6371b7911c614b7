# E-paper panel driver: framing, busy-wait and lifecycle sequences

This project models the core of a Go driver for a Waveshare 7.5" e-paper panel
(`epd/waveshare_driver.go` and `epd/util.go`). The driver talks to the panel
through four pins (reset, data/command select, chip select, busy) and an SPI
bus. Apart from the busy pin, it never reads anything back. Every operation is
a fixed sequence of pin writes, SPI writes and delays, and the only input is the
sequence of busy-pin readings.

The model has two levels.

- **Transactions** (`Wire.Step`): a command, a data burst, a reset-line write,
  a pause or a busy-pin read. A driver operation is a pure function on a
  `Driver.Bus`. It appends the transactions it issues and consumes scripted
  busy-pin readings (`Driver.Sample`, Go's `(int, error)` pair).
- **Pin and SPI events** (`Wire.Event`): `Wire.Frame` turns one transaction
  into the pin writes, SPI write or delay the Go code performs for it, and
  `Wire.Encode` turns a whole transaction log into the event trace.
  `Wire.Parse` is the panel-side decoder, and it is proved to invert `Encode`
  in both directions.

On real hardware `ReadBusy` can spin forever. Here, when the scripted readings
run out in the middle of a busy-wait, the bus is marked `hung`. Every later
operation on a hung bus changes nothing, just as no Go statement after the
endless loop ever runs. One busy-wait round is a status query (opcode 0x71)
followed by one pin read, and the model treats the pair as indivisible.

Modules:

- `Wrappers`: `Option`.
- `Opcodes`: the 32 command opcodes.
- `Util`: `MustRead`.
- `Wire`: transactions, events, framing, the decoder and projections.
- `Driver`: the driver operations.
- `DriverProperties`: lemmas that relate several calls or both views of a trace.

## Model

| member | source | states |
|---|---|---|
| `Util.MustRead` | epd/util.go:5-11 | With no error the reading comes back unchanged. With an error the result is 0 whatever the value. The result is nonzero exactly when there is no error and the value is nonzero. |
| `Driver.SendCommand` | epd/waveshare_driver.go:110-115 | On a live bus, appends exactly one transaction, the command carrying `cmd`. The remaining readings and the hung flag are unchanged. On a hung bus it changes nothing. |
| `Driver.SendData` | epd/waveshare_driver.go:119-124 | On a live bus, appends exactly one transaction, a data burst carrying `data` unchanged. The remaining readings and the hung flag are unchanged. On a hung bus it changes nothing. |
| `Driver.Reset` | epd/waveshare_driver.go:99-106 | On a live bus, appends exactly the six steps reset high, 200 ms, reset low, 2 ms, reset high, 200 ms. The remaining readings and the hung flag are unchanged. On a hung bus it changes nothing. |
| `DriverProperties.SendCommandFraming` | epd/waveshare_driver.go:110-115 | A command adds exactly four events to the wire: DC low, CS low, one SPI write holding only the opcode, CS high. Chip select ends high. |
| `DriverProperties.SendDataFraming` | epd/waveshare_driver.go:119-124 | A data transfer adds exactly DC high, CS low, one SPI write holding the bytes unchanged as one burst, CS high. Chip select ends high. |
| `DriverProperties.ResetFraming` | epd/waveshare_driver.go:99-106 | Reset adds exactly: reset high, 200 ms, reset low, 2 ms, reset high, 200 ms. None of these events is an SPI write, and no pin other than reset is written. |
| `Wire.ParseEncode` | epd/waveshare_driver.go:110-124 | Decoding the wire trace of any transaction log gives back exactly that log, so command and data framing is unambiguous. |
| `Wire.EncodeParse` | epd/waveshare_driver.go:110-124 | Every trace the decoder accepts is the encoding of what it decodes to. |
| `Wire.ParseIffEncode` | epd/waveshare_driver.go:110-124 | A trace decodes to a log if and only if it is that log's encoding. |
| `Wire.EncodeBurstsSelected` | epd/waveshare_driver.go:111-114 | In any trace the driver produces, every SPI write comes directly after CS low and directly before CS high. |
| `Wire.EncodeLeavesChipDeselected` | epd/waveshare_driver.go:114 | After any sequence of transactions the last chip-select write is never low. It is high as soon as one command or data transfer has been sent. |
| `Driver.Poll` | epd/waveshare_driver.go:131-136 | The busy-wait consumes the shortest prefix of readings ending in one that `MustRead` makes nonzero. It issues one status query and one pin read per reading consumed and leaves the rest of the script alone. It hangs only when every remaining reading says busy. |
| `Driver.ReadBusy` | epd/waveshare_driver.go:129-139 | Same as the busy-wait, followed by a 200 ms pause unless the readings ran out. |
| `DriverProperties.StatusPollsShape` | epd/waveshare_driver.go:131-135 | `n` busy-wait rounds contain exactly `n` status queries and `n` pin reads, and each read comes right after a query. |
| `DriverProperties.ReadBusyQueriesEveryRead` | epd/waveshare_driver.go:131-137 | Over what `ReadBusy` adds: every pin read comes right after a 0x71 query. The number of queries equals the number of reads, which equals the number of readings consumed. The last step is the 200 ms pause unless the bus hung. |
| `DriverProperties.PollSeesOnlyReadiness` | epd/waveshare_driver.go:132-135 | Two scripts that agree on which readings `MustRead` makes nonzero produce the same busy-wait log, the same hung flag and the same number of consumed readings. |
| `DriverProperties.FailedReadLooksBusy` | epd/util.go:6-8 | Replacing a failed reading by a successful reading of 0 changes neither the trace of `ReadBusy`, nor whether it hangs, nor how many readings it consumes. A failed read is therefore just "busy". |
| `Driver.New` | epd/waveshare_driver.go:53-96 | Always returns a nil error and stores the given width and height. On the bus it issues the reset pulse, the power-setting table, power-on, 100 ms and a busy-wait. Unless that wait hangs, it then issues 200 ms and the settings table. |
| `Driver.PowerSettings` | epd/waveshare_driver.go:65-69 | Issues command 0x01 followed by the data bytes 07, 07, 3F and 3F, each as its own transaction. |
| `Driver.PanelSettings` | epd/waveshare_driver.go:75-92 | Issues 0x00/1F, 0x61/03 20 01 E0, 0x15/00, 0x50/10 07 and 0x60/22, in that order, with one data transaction per byte. |
| `Driver.PanelGeometry` | epd/waveshare_driver.go:75-82 | Issues the panel setting 0x00/1F, then the resolution command 0x61 followed by 03, 20, 01 and E0, one data transaction per byte. Readings and the hung flag are unchanged, and a hung bus is left alone. |
| `Driver.PanelTiming` | epd/waveshare_driver.go:84-92 | Issues 0x15/00, 0x50/10 07 and 0x60/22, one data transaction per byte. Readings and the hung flag are unchanged, and a hung bus is left alone. |
| `DriverProperties.NewAdded` | epd/waveshare_driver.go:64-73 | Reset comes first. Right after the 0x04 power-on command come a 100 ms pause and a busy-wait. |
| `DriverProperties.NewOpcodes` | epd/waveshare_driver.go:64-92 | Ignoring status queries, `New` sends the opcodes 0x01, 0x04, 0x00, 0x61, 0x15, 0x50, 0x60 in that order. If the power-on wait hangs, it sends only 0x01 and 0x04. |
| `DriverProperties.NewData` | epd/waveshare_driver.go:65-92 | The data bytes of `New` are 07 07 3F 3F 1F 03 20 01 E0 00 10 07 22 in that order. If the power-on wait hangs, they are only 07 07 3F 3F. |
| `DriverProperties.NewIgnoresGeometry` | epd/waveshare_driver.go:78-82 | Whatever width and height are passed, `New` issues the same transactions, including the constant resolution bytes 03 20 01 E0. The geometry is only stored. |
| `Driver.QuoEight` | epd/waveshare_driver.go:179 | Go's signed `/ 8`: the quotient rounds toward zero for negative and non-negative operands alike. |
| `Driver.ZeroFill` | epd/waveshare_driver.go:179-182 | The counting loop issues exactly `max(n, 0)` single-byte zero data transactions. |
| `Driver.WritePlanes` | epd/waveshare_driver.go:178-190 | Issues 0x10, the zero run, 0x13, the same zero run, then 0x12. |
| `Driver.Clear` | epd/waveshare_driver.go:177-193 | Issues both zeroed planes sized by `Width*Height/8`, the refresh command, 100 ms, a busy-wait, then 200 ms unless the wait hung. It consumes readings exactly as a busy-wait does. |
| `DriverProperties.ClearWritesZeroPlanes` | epd/waveshare_driver.go:178-192 | Ignoring status queries, `Clear` sends the opcodes 0x10, 0x13, 0x12. All of its data bytes are zero and they split into two equal planes. Each plane holds one byte per eight pixels, rounded down, so for a positive pixel count `8 * plane <= W*H < 8 * plane + 8`. There are no data bytes when `W*H <= 0`. |
| `Driver.Sleep` | epd/waveshare_driver.go:196-202 | Issues 0x02 and a busy-wait. Unless the wait hangs, it then issues 200 ms, 0x07 and the single data byte A5, and nothing after that. |
| `Driver.DeepSleepAfter` | epd/waveshare_driver.go:200-201 | Issues the deep-sleep command 0x07 followed by its A5 check byte. |
| `DriverProperties.SleepEndsWithDeepSleep` | epd/waveshare_driver.go:197-201 | When `Sleep` completes, its trace ends with the eight events of the 0x07 command frame and the A5 data frame. |

## Left out

- `Display`, `GetBuffer` and `rgbaToPixel` (epd/waveshare_driver.go:142-174) are left out. They do not compile as written: a `Pixel` composite literal is built although `Pixel` is an `int`, `GetBuffer` has no return, and a four-value `RGBA()` result is appended as one value. Their dithering also comes from an external library. The source has no bit-packing routine, and none is modelled.
- epd/rpi_driver.go is not part of this model. It holds GPIO and SPI setup and teardown over an external library. The model sees the pins and the bus only as the abstract event trace.
- Real time is not modelled. `time.Sleep` is a `Pause`/`Delay` of the same number of milliseconds, and `log.Println` calls are dropped.
- Transport errors are not modelled. The Go code discards the error results of `DigitalWrite` and `SPI.Write`, so the model's writes always succeed. The only error path is `MustRead`'s.
- Endless busy-waits are not modelled directly. The readings are a finite script, and running out of it marks the bus `hung`. A busy-wait round (status query plus read) is atomic, so a hung trace ends after the last completed round, not on a dangling 0x71 query.
- Driver.Clear: the pixel count `Width*Height` is an unbounded integer. Go's `int` (32 or 64 bits, depending on the platform) could wrap for very large geometries, and that is not modelled.
- Driver.Clear: Go re-evaluates `e.Width*e.Height/8` on every loop iteration. The model computes it once, which gives the same result because the geometry never changes.
- The 32 opcode variables are constants in the model (`Opcodes`). Go declares them as mutable package variables, but nothing in the code assigns them.

Facts about the code that the model reproduces as written:

- The resolution bytes are always 03 20 01 E0 (800 x 480), whatever geometry is passed (`NewIgnoresGeometry`).
- `New` never reports a transport error; its error result is always nil.
- `Clear` does not require `Width*Height` to be divisible by 8: it sends the truncated quotient, and nothing when the count is not positive.
- The busy-wait continues while `MustRead` returns 0, so any nonzero reading means ready and a failed read counts as busy.
