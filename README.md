# recept: a verified model of the evdev coordinate smoother

recept is a small library preloaded into a process that reads a pen or touch
device. It intercepts `read`, and when a `read` on `/dev/input/event1` returns
exactly 16 bytes, it passes that one Linux `struct input_event` record through
`filter`, which smooths the X and Y coordinates with an exponential moving
average before the caller sees them. A `read` that returns several records at
once is passed on unfiltered.
This project models that filter and its smoother, `ewma`, and proves what
they promise.

- `ints.dfy` (module `Ints`): `uint8_t`, `uint16_t` and `uint32_t` as integer ranges.
- `layout.dfy` (module `Layout`): the record layout. `type` is byte 8. `code` is
  bytes 10-11, little-endian. `value` is bytes 12-15, little-endian. The module
  has the decode and encode functions and proves that they are inverses.
- `smoother.dfy` (module `Smoother`): the `ewma` smoother. `EwmaState` and the
  pure functions `Cleared`, `Added` and `Truncated` specify it. The class `Ewma`
  updates its `isEmpty` and `mValue` fields in place, and each method is proved
  against those functions. Lemmas cover the smoother's state machine
  (empty or tracking), its range, and what the half-life means.
- `filter.dfy` (module `Recept`): `update_pos` and `filter`. The pure function
  `Step` specifies one call of `filter`. The class `RecordFilter` owns the two
  smoothers that the source keeps as the static objects `avg_x` and `avg_y`.
  Its method `Filter` rewrites a 16-byte `array<uint8>` in place, and it is
  proved equal to `Step`. Lemmas cover the reset guard, the axis routing and
  the pass-through of everything else.

Modelling decisions:

- Bytes are unsigned. The source reads the record through a plain `char*`.
  Its shift-and-OR decode gives the little-endian value only where `char` is
  unsigned, as on ARM. The model assumes that case.
- The shifted bytes never overlap, so the OR of the source is written as a
  base-256 sum. An encoded byte is `(uint8_t)(v >> 8*i)`, written as a
  division and a remainder.
- `m_value` is a real number, not a `float`. `value()` converts it to
  `uint32_t` by truncation, which is `Floor` because the value is never
  negative. In the model, the real-valued `mValue` provably stays within
  `uint32_t` range, so the conversion is defined there; for the source's
  `float`, see "## Left out".
- The source computes `m_alpha` as `exp(log(0.5) / HalfLife)`. The model
  takes `alpha` as a constructor argument and requires only `0 < alpha < 1`,
  which is all `add` needs; the source's default (HalfLife 4, alpha about
  0.8409) can be built. The half-life relation `alpha^halfLife == 1/2` is
  stated where it matters: `AlphaBelowOne` proves that such an alpha lies
  below 1, and `HalfLifeHalves` proves what the half-life means.
- The two smoothers are static objects, so `m_value` is zero-initialised. The
  constructor therefore starts each smoother as empty with value 0.

## Model

| member | source | states |
|---|---|---|
| Layout.DecodeEncode | recept.cpp:91-94 | decoding the four bytes written for a value gives that value back |
| Layout.EncodeDecode | recept.cpp:52-56 | encoding the decoded `value` field gives back the same four bytes (unsigned bytes) |
| Layout.WithValue | recept.cpp:91-94 | writing a value back keeps bytes 0-11, so also `type` and `code`, and the record then decodes to that value |
| Layout.WithOwnValue | recept.cpp:91-94 | writing back a record's own decoded value leaves all 16 bytes unchanged |
| Layout.DecodeLE16 | recept.cpp:49-51 | the `code` decode, little-endian: low byte plus 256 times high byte (the OR of non-overlapping shifted bytes) |
| Layout.DecodeLE32 | recept.cpp:52-56 | the `value` decode, little-endian: the four bytes as base-256 digits, least significant first; `EncodeDecode` proves it inverse to `EncodeLE32` |
| Layout.EncodeLE32 | recept.cpp:91-94 | the write-back produces exactly four bytes, byte i being `(uint8_t)(value >> 8*i)`; `DecodeEncode` and `EncodeDecode` prove it inverts `DecodeLE32` |
| Layout.RecordType | recept.cpp:48 | the `type` field is byte 8 |
| Layout.RecordCode | recept.cpp:49-51 | the `code` field is bytes 10-11, little-endian |
| Layout.RecordValue | recept.cpp:52-56 | the `value` field is bytes 12-15, little-endian |
| Smoother.Blend | recept.cpp:28 | the tracking update `alpha * m_value + (1 - alpha) * value` |
| Smoother.Cleared | recept.cpp:21 | `clear` sets the empty flag and nothing else |
| Smoother.Added | recept.cpp:23-31 | `add` stores the sample when empty, the blend otherwise, and marks the smoother tracking |
| Smoother.Feed | recept.cpp:23-31 | repeated `add` over a sequence of samples, in order |
| Recept.IsToolIn | recept.cpp:74 | the reset guard: type 1, code 320 or 321, value 1 |
| Recept.Reset | recept.cpp:76-77 | `avg_x.clear(); avg_y.clear();` |
| Smoother.BlendBetween | recept.cpp:28 | a blend lies between the stored value and the sample, and differs from the sample when they differ |
| Smoother.AddedInRange | recept.cpp:23-31 | `add` keeps the stored value within the `uint32_t` range, whether the smoother was empty or tracking |
| Smoother.Truncated | recept.cpp:33 | `value()` is the largest integer not above the stored value |
| Smoother.ClearIdempotent | recept.cpp:21 | `clear` sets only the empty flag and keeps the stored value; a second `clear` changes nothing |
| Smoother.AddTracks | recept.cpp:23-31 | after any `add`, the smoother is tracking, whatever its state before |
| Smoother.FirstSampleVerbatim | recept.cpp:25-26 | the first `add(v)` after `clear` stores `v` exactly, and `value()` returns `v` |
| Smoother.AlphaBelowOne | recept.cpp:19 | a positive alpha whose half-life-th power is 1/2 is below 1 |
| Smoother.FeedBetween | recept.cpp:23-31 | after any run of samples, the smoothed value lies between the bounds of the old value and the samples |
| Smoother.FeedNonEmpty | recept.cpp:30 | a tracking smoother stays tracking through any run of samples |
| Smoother.FeedLinear | recept.cpp:28 | after n more samples, the old value contributes exactly `alpha^n` times itself |
| Smoother.HalfLifeHalves | recept.cpp:19 | after half-life more samples, the old value contributes exactly half of itself |
| Smoother.Ewma.constructor | recept.cpp:19 | a new smoother is empty with value 0, and its `alpha` (a coefficient in (0, 1)) is fixed |
| Smoother.Ewma.Clear | recept.cpp:21 | the new state is `Cleared` of the old state; alpha is a constant and is never written |
| Smoother.Ewma.Add | recept.cpp:23-31 | the new state is `Added` of the old state and the sample, and the value stays in range |
| Smoother.Ewma.Value | recept.cpp:33 | returns the stored value truncated to `uint32_t` |
| Recept.UpdatePos | recept.cpp:39-44 | adds the sample to the given smoother only, and returns that smoother's `value()` afterwards |
| Recept.Step | recept.cpp:46-96 | bytes 0-11 are never written; a record whose type is not 3 comes out byte-identical; the smoothers stay in range |
| Recept.RecordFilter.constructor | recept.cpp:36-37 | two distinct smoothers with the same alpha, both empty |
| Recept.RecordFilter.Filter | recept.cpp:46-96 | the in-place filter on a 16-byte buffer leaves the smoothers and the buffer exactly as `Step` says |
| Recept.ToolInResets | recept.cpp:74-78 | a type-1 record with code 320 or 321 and value 1 empties both smoothers and leaves all 16 bytes unchanged |
| Recept.OtherRecordsUntouched | recept.cpp:74-80 | any other record whose type is not 3 (for example code 330, or value 0) changes neither smoother nor any byte |
| Recept.AbsXRouted | recept.cpp:82-84 | type 3, code 0 feeds only the X smoother, and the output value is the X smoother's `value()` |
| Recept.AbsYRouted | recept.cpp:85-87 | type 3, code 1 feeds only the Y smoother, and the output value is the Y smoother's `value()` |
| Recept.OtherAbsUntouched | recept.cpp:80-95 | a type-3 record with any other code is re-encoded to the same bytes, and neither smoother changes |
| Recept.FirstXAfterToolInVerbatim | recept.cpp:74-94 | after a pen-in or eraser-in record, the next type-3 code-0 record comes out byte-identical |
| Recept.TwoXAfterToolIn | recept.cpp:80-94 | after a reset, X samples v1 then v2 come out as v1, then as the truncated blend of v1 and v2, which lies between them |

## Left out

- The `open` and `read` interposition (recept.cpp:98-145) is not modelled. It uses `dlsym`, matches the `/dev/input/event1` path, tracks the file descriptor and calls `printf`. All of that is OS plumbing. Its effect on the core is that `filter` runs only on a `read` of the descriptor opened for `/dev/input/event1` (recept.cpp:121-125) that returns exactly 16 bytes (recept.cpp:139); a `read` returning several records is not filtered. `Filter` takes the 16-byte length as its precondition.
- Floating point is not modelled. `m_value` is a real number, so IEEE rounding is absent, and so is the loss of precision when a `uint32_t` above 2^24 is converted to `float`. With `float`, the first sample is read back exactly only up to 2^24; in the model this holds for every `uint32_t`.
- `exp` and `log` are not computed. The model takes `alpha` as a parameter in (0, 1); the lemmas about the half-life characterise it by `alpha > 0` and `alpha^halfLife == 1/2`.
- Smoother.Ewma.constructor: requires `0 < alpha < 1`, which is what a positive half-life gives; the source accepts any `HalfLife` (a half-life of 0 gives alpha 0, a negative one an alpha above 1). The `HALF_LIFE` macro (recept.cpp:6-8) is a compile-time setting whose default is 4; the source does not validate it, and the model does not model that configuration.
- Smoother.Ewma.Value: in the source, `m_value` is a `float`, and a sample of 0xFFFFFF80 or above (which includes the signed coordinates -128..-1 read as `uint32_t`) is stored as 4294967296.0f; converting that `float` to `uint32_t` in `value()` (recept.cpp:33) is then undefined behaviour in C++. The model's real-valued `mValue` never leaves `uint32_t` range, so it does not capture this undefined conversion.
- Signed `char` is not modelled. There, a byte of 0x80 or above would be sign-extended by the casts at recept.cpp:50-51 (`code`) and recept.cpp:53-56 (`value`); the cast at line 48 is to `uint8_t` and does not sign-extend, so decode and encode would no longer be inverses.
- Concurrency is not modelled. The source is single-threaded; its smoothers are unsynchronised globals.
