# Sound sample store and 8-bit mixing callback

This project models the core of `audio-lib3`, a small audio playback library.
The core is the `Sound` state that an SDL audio device owns. It holds a
fixed-length circular buffer of unsigned 8-bit samples, a recorded size
`buf_size`, a volume level, a mute flag, a playback cursor `current` and a count
`called` of callback periods.

- The control side changes and reads this state through `set_mute`, `set_volume`,
  `set_data` and five getters.
- The audio thread calls `callback` once per output period. For each slot it
  picks the sample under the cursor and re-centres it around 128. A volume
  ladder (a left shift by 2 to 8 bits) scales it. It is then re-biased by
  32768 and narrowed to an unsigned 16-bit output code.

The Dafny is split into three modules:

- `Ring` (`ring.dfy`) defines the circular write. `Written` is the buffer after
  writing a slice element by element at `(offset + i) % n`. The lemmas say which
  element each position ends up holding.
- `Mixing` (`mixing.dfy`) holds the per-sample arithmetic, stated exactly as the
  source does it:
  - `ShlI32` is the i32 `<<`, written as multiplication followed by 32-bit
    two's-complement wrapping.
  - `AsU16` is the `as u16` cast, which keeps the low 16 bits.
  - `Scale` is the `match` ladder.
  - `SampleAt` is `buffer.get(pos).unwrap_or(&128)`.
  - `Deviation` and `MixSample` compute one slot. `Mixed` is the run of slots
    produced from a given cursor.

  The lemmas prove that neither the wrapping nor the truncation ever happens.
  They also prove the sample-by-sample formula, silence, the centre code,
  monotonicity in volume, and that splitting the output into periods does not
  drift.
- `Audio` (`sound.dfy`) holds the class `Sound`. Its fields are the struct's
  fields, and the buffer is an `array<uint8>` written in place. `Valid()` is the
  invariant `buffer.Length == bufSize`. The constructor is the initial value
  built in `open_device`'s closure. Each `Control` operation is a method, and
  `callback` is `Callback`, a loop that fills an output array. `SetData` and
  `Callback` are proved against `Ring.Written` and `Mixing.Mixed`.

Two remainder operations (`%`) by `buf_size` can panic in the source, at
src/lib.rs:48 and src/lib.rs:87. They become preconditions stated as narrowly
as the source allows:

- `open_device` accepts a length of 0.
- `set_data` reaches `pos % len` only for a non-empty slice, so `SetData`
  requires `bufSize > 0` only when `sound` is non-empty.
- `callback` reaches `self.current % self.buf_size` only for a slot that is
  neither muted nor at volume 0. So `Callback` requires `bufSize > 0` only when
  `out` is non-empty, the device is unmuted and the volume is non-zero.

Two behaviours of the code worth stating:

- The volume is a full `u16` that is never clamped. Every level from 7 up takes
  the `_` arm, the shift by 8 (`Mixing.TopTier`).
- The callback does not saturate. The bias is added with plain i32 arithmetic
  and the result is cast with `as u16`. For 8-bit input the cast provably never
  changes the value (`Mixing.NoTruncation`).

## Model

| member | source | states |
|---|---|---|
| Audio.Sound.constructor | src/lib.rs:172-179 | the initial store: `buf_size == len` (0 allowed), `len` neutral codes of 128, volume 0, not muted, `current` and `called` 0; `Valid()` holds |
| Audio.Sound.SetMute | src/lib.rs:33-36 | the mute flag becomes the argument; nothing else changes |
| Audio.Sound.SetVolume | src/lib.rs:38-41 | the volume becomes the argument, unvalidated; nothing else changes |
| Audio.Sound.SetData | src/lib.rs:43-51 | for `offset + |sound| < 2^64` (so `pos` never overflows) the buffer becomes `Ring.Written(old buffer, offset, sound)`; its length stays `buf_size`; `buf_size`, volume, mute, `current` and `called` are unchanged |
| Audio.Sound.BufSize | src/lib.rs:53-56 | returns `buf_size`, which equals the buffer's length |
| Audio.Sound.Mute | src/lib.rs:58-61 | returns the mute flag |
| Audio.Sound.Volume | src/lib.rs:63-66 | returns the volume |
| Audio.Sound.Current | src/lib.rs:68-71 | returns the playback cursor |
| Audio.Sound.Called | src/lib.rs:73-76 | returns the period count |
| Audio.Sound.Callback | src/lib.rs:82-106 | `out` becomes `Mixed(buffer, buf_size, volume, mute, old current, out.Length)`; `current` grows by `out.Length` and `called` by 1; buffer, `buf_size`, volume and mute are unchanged |
| Audio.WrittenThenPlayed | src/lib.rs:43-102 | a pattern no longer than the buffer, written at an offset congruent to the cursor modulo the buffer size, plays back unmuted at any non-zero volume as `(pattern[k] - 128) * 2^shift(volume) + 32768`, sample for sample |
| Ring.Slot | src/lib.rs:48 | the index `pos % len` written by element i of a write from `offset` is in bounds |
| Ring.Written | src/lib.rs:45-50 | writing a slice into the ring never changes the buffer's length |
| Ring.WrittenAt | src/lib.rs:45-50 | afterwards each position holds the slice element with the largest index i that lands on it, or its old value if no element lands on it (so an empty slice changes nothing) |
| Ring.SlotsDistinct | src/lib.rs:48 | fewer than `len` consecutive writes land on pairwise distinct positions |
| Ring.SlotShift | src/lib.rs:48 | two starting positions that agree modulo the buffer size land on the same slot at every later step |
| Ring.WrittenInOrder | src/lib.rs:45-50 | for a slice no longer than the buffer, position `(offset + i) % len` holds `sound[i]` for every i, and every other position keeps its old value |
| Mixing.WrapI32 | src/lib.rs:92-98 | the result of `<<` is in the i32 range, is congruent to the exact product modulo 2^32, and equals it when the product fits |
| Mixing.ShlI32 | src/lib.rs:92-98 | the definition of the i32 `<<`: an i32 value congruent to `x * 2^k` modulo 2^32 (via `WrapI32`); `ScaleExact` shows it never wraps here |
| Mixing.Scale | src/lib.rs:90-99 | the definition of the `match` ladder, an i32 value; its gain per level is stated by `ScaleExact` and `TopTier` |
| Mixing.SampleAt | src/lib.rs:88 | the definition of `buffer.get(pos).unwrap_or(&128)`: a stored sample or the neutral code; `SampleFormula` shows the fallback is not taken |
| Mixing.Deviation | src/lib.rs:84-101 | the definition of `output`: an i32 value, 0 when muted or at volume 0; its range is stated by `NoTruncation` |
| Mixing.MixSample | src/lib.rs:102 | the definition of `(output + SETUP_U16) as u16`, congruent to `output + 32768` modulo 2^16; `NoTruncation`, `Silence` and `CentreIsSilent` state its value |
| Mixing.AsU16 | src/lib.rs:102 | the cast result is congruent to its argument modulo 2^16 and equals it when the argument is in [0, 65535] |
| Mixing.ScaleExact | src/lib.rs:90-99 | for a deviation in [-128, 127] and a non-zero volume, each shift arm multiplies by `2^shift(volume)` without wrapping (shift 2..7 for levels 1..6, 8 above) and lands in [-32768, 32512] |
| Mixing.NoTruncation | src/lib.rs:84-102 | every slot's deviation is in [-32768, 32512]; the biased value is in [0, 65280], so the i32 addition does not overflow and the `as u16` cast does not truncate |
| Mixing.Silence | src/lib.rs:84-102 | when muted or at volume 0, every slot of a period is 32768, whatever the buffer holds |
| Mixing.SampleFormula | src/lib.rs:87-102 | when the buffer length is `buf_size > 0` and the slot is audible, the `unwrap_or` fallback is not taken, and the slot is `(buffer[current % buf_size] - 128) * 2^shift(volume) + 32768` |
| Mixing.CentreIsSilent | src/lib.rs:84-102 | a stored sample of 128 produces 32768 at every volume and mute setting |
| Mixing.LouderWithVolume | src/lib.rs:90-99 | for a fixed non-zero deviation, the magnitude of the scaled deviation strictly increases at each step from volume 1 to 7 |
| Mixing.TopTier | src/lib.rs:98 | every volume from 7 up scales by 256, the same as volume 7 |
| Mixing.MixedAt | src/lib.rs:83-104 | slot k of a period is the slot computed with the cursor advanced by k |
| Mixing.MixedSplit | src/lib.rs:83-105 | two consecutive periods of a and b slots, the cursor carried over, produce the same samples as one period of a + b slots: no drift, no skipped or repeated sample |
| Mixing.Mixed | src/lib.rs:83-104 | a period produces exactly one code per output slot |

## Left out

- The SDL lock taken by every `Control` operation serialises the control thread
  against the audio thread. Each operation is modelled as one atomic sequential
  step, so concurrency is not modelled.
- `AudioContext` is not modelled: SDL initialisation, the desired-spec getters
  and setters and `open_playback`. These are thin wrappers over a foreign
  library. Only the initial `Sound` value is modelled, as the constructor.
- `wav_file_to_sound` is not modelled. It does file I/O, and its conversion
  is a call into the foreign SDL library (`AudioCVT`), which is out of scope.
- `AUDIO_HALT_DATA` and the placeholder unit test are not modelled. Neither
  takes part in the store or the mixing.
- `current` and `called` are unbounded `nat`s. The `usize` overflow after 2^64
  samples is not modelled.
- SetData: the method does not model the run-time panic for a non-empty slice
  on a zero-length store. It requires `bufSize > 0` in that case instead.
- SetData: the method does not model the `usize` overflow of the running
  position `pos` (a panic in a debug build, a wrap to 0 in a release build).
  It requires `offset + |sound| < 2^64` instead, so `pos += 1` never overflows.
- Callback: the method does not model the run-time panic for an audible slot
  on a zero-length store. It requires `bufSize > 0` in that case instead.
