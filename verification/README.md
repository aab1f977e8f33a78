# PDM microphone capture firmware — Dafny model

This project models the firmware of a board with a PDM microphone. The
firmware captures audio and analyses it block by block (`src/main.c`):

- **Block geometry** (`block_geometry.dfy`, module `BlockGeometry`). One block
  is 2 bytes × (rate div 10) × channels, i.e. a tenth of a second of 16-bit
  audio. The memory slab has 4 slots of the 16 kHz mono block size (3200
  bytes). The stream is configured with that same block size. A received
  block holds `size div 2` samples.
- **Peak detection** (`peak.dfy`, module `Peak`). `PeakScan` is the in-place
  `for` loop over the driver's buffer. It keeps a running maximum seeded
  with 0. It is proved against the specification function `RunningMax`.
  `PeakReported` is the threshold test as written:
  `max_val > 500 || max_val < -500`.
- **Start-up** (`setup.dfy`, module `Setup`). The start-up sequence checks
  GPIO readiness, powers the microphone, configures the microphone, then
  starts the trigger. Each failure returns early. Driver calls are reduced
  to the readiness flags and return codes they produce. `Boot` adds the
  microphone-readiness check that `main` does first.
- **Capture loop** (`capture.dfy`, module `Capture`). A pass reads a block. A
  failed read prints an error, sleeps 10 ms and retries. A successful read
  increments the block counter and prints a status line on every tenth
  block. It then scans the block and prints a peak report if the peak is
  loud. Finally it frees the buffer back to the slab.
  - `Iterate` and `Run` specify one pass and any finite run of the endless
    loop over abstract read outcomes.
  - Console output is a log of `Event` values.
  - Class `CaptureLoop` holds the loop's mutable state. Its `Step` method is
    proved to follow `Iterate` and to free the buffer it receives exactly
    once. `held` counts the buffers the loop owns. It is 0 between passes
    and never above 1, well within the 4-slot slab.

The peak is the largest *sample*, not the largest *magnitude*. A design-level
description of this kind of pipeline describes it as `max |sample|`; the
firmware does not do that, and this model follows the firmware. As a result
the `max_val < -500` half of the report test can never fire
(`NegativeBranchUnreachable`). A block whose only loud excursions are
negative is never reported (`NegativeExcursionsUnreported`). For the
block [-2000, 500, 1999, -1999] the firmware yields 1999, not 2000
(`MixedBlockScan`).

## Model

| member | source | states |
|---|---|---|
| BlockGeometry.NumSamples | src/main.c:67 | the samples counted never extend past `size` bytes, and at most one trailing byte is left unscanned |
| BlockGeometry.StreamBlockFillsSlot | src/main.c:121-124 | at 16 kHz mono a block is 3200 bytes (1600 samples), and the configured stream block size equals the slab slot size |
| BlockGeometry.BlockFitsSlot | src/main.c:16-19 | every mono rate up to the 16 kHz maximum gives a block no larger than one slab slot |
| BlockGeometry.BlockIsTenthOfSecond | src/main.c:13-14 | a block is a whole number of frames, and that number is the rate's truncated tenth (`10·frames ≤ rate < 10·frames + 10`) |
| BlockGeometry.BlockIsWholeSamples | src/main.c:13-14 | every block size is even, so `size div 2` samples cover the whole block |
| Peak.PeakScan | src/main.c:77-80 | the scan returns the running maximum of the first `numSamples` samples: non-negative, at least every scanned sample, and either 0 or one of those samples |
| Peak.RunningMaxIsPeak | src/main.c:77-80 | the running maximum seeded with 0 is ≥ 0, bounds every sample, and is 0 or some sample |
| Peak.RunningMaxOfNonPositive | src/main.c:77-80 | a block with no positive sample (all-zero and empty included) scans to 0 |
| Peak.PeakReportedIffLoudSample | src/main.c:77-85 | "Peak detected" is printed exactly when some scanned sample exceeds 500 |
| Peak.NegativeBranchUnreachable | src/main.c:83 | the `max_val < -500` disjunct never holds, so the report test reduces to `max_val > 500` |
| Peak.NegativeExcursionsUnreported | src/main.c:77-85 | a block whose samples are all ≤ 0 is never reported, however large its negative excursions |
| Peak.MixedBlockScan | src/main.c:77-85 | the block [-2000, 500, 1999, -1999] scans to 1999 and is reported |
| Setup.StreamSetup | src/main.c:26-50 | the loop is entered iff GPIO is ready, configure returns ≥ 0 and trigger returns ≥ 0; calls are issued in order; configure is attempted iff GPIO is ready; trigger is attempted iff configure succeeded; each failure is reported with its code |
| Setup.Boot | src/main.c:98-101 | with the microphone device not ready nothing is called; streaming needs all four checks to pass |
| Setup.ConfigureFailureStopsStartup | src/main.c:37-41 | after a configure failure the trigger is never attempted, and the trigger's outcome cannot change the result |
| Capture.RunCountsSuccesses | src/main.c:53-88 | over any run, the block counter and the number of buffers freed each grow by exactly the number of successful reads |
| Capture.FailuresOnlyRetry | src/main.c:58-64 | any number of consecutive failed reads leaves the counter and the slab untouched and prints exactly one error line (carrying the current count and the code) and one 10 ms retry delay per attempt |
| Capture.LiveAfterFailures | src/main.c:53-66 | after any number of failures the loop has not exited: the next successful read counts one block and frees one buffer |
| Capture.StatusOnEveryTenthBlock | src/main.c:70-73 | one pass prints a status line iff it reads a block whose new count is a multiple of 10 |
| Capture.StatusLinesOverRun | src/main.c:66-73 | over any run, status lines printed track the multiples of 10 the counter passes |
| Capture.StatusLinesFromStart | src/main.c:52-73 | from loop entry, the number of status lines is the number of successful blocks div 10 |
| Capture.PeakReportOfBlock | src/main.c:67-85 | a successful pass reports a peak iff one of its `size div 2` valid samples exceeds 500; the reported value is > 500 and is the block's largest valid sample |
| Capture.ShortBlockNoPeak | src/main.c:67-85 | a block of fewer than 2 bytes yields no peak report |
| Capture.CaptureLoop.constructor | src/main.c:52 | the loop starts with counter 0, nothing freed, nothing printed and no buffer held |
| Capture.CaptureLoop.Receive | src/main.c:58 | a successful read hands one buffer to the loop |
| Capture.CaptureLoop.Free | src/main.c:87 | freeing needs a held buffer and returns it, so it cannot happen twice |
| Capture.CaptureLoop.Step | src/main.c:53-88 | one pass changes the state exactly as `Iterate` says, and ends with no buffer held (at most one held during the pass) |
| Capture.StartStreaming | src/main.c:21-53 | a loop in its entry state is created iff start-up reaches streaming |

## Left out

- Driver and kernel calls are not modelled: `dmic_configure`, `dmic_trigger`, `dmic_read`, `device_is_ready`, `gpio_pin_configure` and the `k_mem_slab_*` internals. Each becomes the flag, return code or buffer contents it yields. The slab slots the driver holds while filling them are not counted; only the loop's own `held` is.
- Timing is not modelled: `k_msleep` (2000 ms before the readiness check, 500 ms after power-on, 10 ms retry delay) and the 2000 ms read timeout. The retry delay appears only as a `Slept(10)` event.
- `printk` formatting is not modelled. Each message is an `Event` carrying the values it prints. The start-up messages are represented by `Setup.Exit`.
- The return value of `gpio_pin_configure` is ignored by the firmware. The model only records that the call was made.
- The PDM clock frequencies, duty cycle limits and channel map (src/main.c:108-122) are plain hardware constants with no logic.
- The endless `while (1)` loop is modelled by `Run` over any finite sequence of read outcomes, and by repeated `CaptureLoop.Step` calls.
- Capture.CaptureLoop.Step: `block_cnt` is a C `int`, modelled as an unbounded `nat`. Its overflow after 2^31 blocks is not modelled.
- BlockGeometry.BlockSize: arithmetic is unbounded. Unsigned wrap-around cannot occur for the rates used (at most 16000 Hz, one channel).
- Capture.CaptureLoop.Step: when a block is shorter than 2 bytes, the status line's first sample is whatever the slot holds at index 0. The model takes the slot contents as given.
- `src/collect.py` (serial capture to a file) and `src/convert_wav.py` (WAV wrapping) are host-side scripts, not part of this model. Their format constants (1 channel, 2-byte samples, 16000 Hz) agree with `MaxSampleRate`, `BytesPerSample` and `StreamChannels`.
- Not modelled because the firmware does not implement them: chunked wireless sending, busy-retry budgets, connection gating and binary sample streaming. The firmware prints text only.
