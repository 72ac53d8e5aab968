# FFT accelerator register test, in Dafny

This project models the bare-metal test program for a memory-mapped FFT
accelerator core (`fft-test.c`). The program stores eight packed 32-bit input
words, one after another, to the accelerator's single write lane at `0x2000`.
It then loads read lanes 0 … 7, where read lane `i` is at `0x2008 + i * 8`.
Each loaded word is split into an unsigned upper half (`real_part`, bits
31..16) and an unsigned lower half (`imaginary_part`, bits 15..0).

Modules:

- `Mmio` (`mmio.dfy`) covers the register space. A `Bus` records every volatile
  access in order in its `trace`. The value a load returns comes from a
  response function fixed when the bus is created; that function may depend
  on the whole history. This module also holds the helpers `reg_read64` and
  `reg_write64`.
- `Numerals` (`numerals.dfy`) gives the value of a binary literal read from its
  digits. It also shows how groups of four digits become hexadecimal digits.
- `FftTest` (`fft_test.dfy`) covers the rest of `main`:
  - the read-lane address formula and its inverse;
  - the 16/16 split of a word and its round trips;
  - the `points` table;
  - the exact access sequence of a run (`Session`) and what it guarantees;
  - `main` itself, as the method `RunFftTest`.

A reader of an FFT interface might expect more than `fft-test.c` does; the
model follows the code:

- The halves are unsigned 16-bit values (`uint16_t`, printed with `PRIu16`).
  They are not signed two's-complement numbers, so `0xFF4B` is 65355.
- Nothing scales the halves to fixed point, and there is no encode function.
  The input words are pre-packed constants.
- No code rejects an out-of-range index. Only the loop bound keeps `i` in
  `[0, 8)`. `ReadLane` is therefore total, and the range appears as a loop
  invariant of `RunFftTest`.

## Model

| member | source | states |
|---|---|---|
| `Mmio.Bus.Store32` | fft-test.c:38-39 | a volatile 32-bit store appends exactly one `Store32(addr, word)` event to the trace and changes nothing else |
| `Mmio.Bus.Load32` | fft-test.c:44-45 | a volatile 32-bit load appends exactly one `Load32` event; its value is the hardware's answer for that address after the history so far |
| `Mmio.Bus.Store64` | fft-test.c:17-18 | a volatile 64-bit store appends exactly one `Store64(addr, data)` event |
| `Mmio.Bus.Load64` | fft-test.c:10-11 | a volatile 64-bit load appends exactly one `Load64` event carrying the hardware's answer |
| `Mmio.RegRead64` | fft-test.c:8-13 | one 64-bit load at `addr`; the loaded value is stored into `*data`, and that same value is returned |
| `Mmio.RegWrite64` | fft-test.c:15-19 | exactly one 64-bit store of `data` at `addr`, and no other access |
| `FftTest.ReadLane` | fft-test.c:1-3 | a read-lane address is above the write lane; for `i < num_points` it lies inside the bank of eight lanes |
| `FftTest.LaneOf` | fft-test.c:2-3 | the inverse of the address formula: an address maps to lane `i` only if `ReadLane(i)` is that address |
| `FftTest.LaneOfReadLane` | fft-test.c:1-3 | `ReadLane(i)` maps back to exactly `i`, so lane addresses name their index; the write lane `0x2000` is no read lane |
| `FftTest.ReadLanesIncrease` | fft-test.c:44 | read-lane addresses strictly increase with the index, 8 apart, so they are pairwise distinct |
| `FftTest.ReadLaneThree` | fft-test.c:3 | read lane 3 is at `0x2020` |
| `FftTest.RealPart` | fft-test.c:46 | `read_val >> 16` is the unsigned quotient of the word by 2^16, i.e. exactly bits 31..16 moved down |
| `FftTest.ImaginaryPart` | fft-test.c:47 | `read_val & 0xFFFF` is the unsigned remainder of the word by 2^16, i.e. bits 15..0 |
| `FftTest.Recombine` | fft-test.c:46-47 | `(real << 16) \| imaginary` is `real * 2^16 + imaginary` |
| `FftTest.SplitThenRecombine` | fft-test.c:46-47 | recombining the two halves of any word gives back that word |
| `FftTest.RecombineThenSplit` | fft-test.c:46-47 | splitting a recombined word gives back both halves |
| `FftTest.Decode` | fft-test.c:46-48 | the reported pair is the unique pair of halves whose recombination is the loaded word |
| `FftTest.Point0AsWritten` | fft-test.c:26 | the first binary literal is 32 binary digits with the value `0x00B5FF4B` of its comment |
| `FftTest.Point1AsWritten` | fft-test.c:27 | the second binary literal has the value `0x0000FF00` |
| `FftTest.Point2AsWritten` | fft-test.c:28 | the third binary literal has the value `0xFF4BFF4B` |
| `FftTest.Point3AsWritten` | fft-test.c:29 | the fourth binary literal has the value `0xFF000000` |
| `FftTest.Point4AsWritten` | fft-test.c:30 | the fifth binary literal has the value `0xFF4B00B5` |
| `FftTest.Point5AsWritten` | fft-test.c:31 | the sixth binary literal has the value `0x00000100` |
| `FftTest.Point6AsWritten` | fft-test.c:32 | the seventh binary literal has the value `0x00B500B5` |
| `FftTest.Point7AsWritten` | fft-test.c:33 | the eighth binary literal has the value `0x01000000` |
| `FftTest.PointsAsWritten` | fft-test.c:25-34 | the table has `num_points` entries, and every binary literal equals the hexadecimal value in its comment |
| `FftTest.Point2Halves` | fft-test.c:28 | `points[2]` splits into `(0xFF4B, 0xFF4B)`, each the unsigned value 65355 with no sign extension |
| `FftTest.WritePhase` | fft-test.c:36-41 | the write loop issues exactly one store per input word |
| `FftTest.WritePhaseAt` | fft-test.c:36-41 | the k-th store of the write loop stores `points[k]` to `FFT_WRITE_LANE` |
| `FftTest.ReadPhase` | fft-test.c:43-45 | the read loop issues exactly one load per lane index |
| `FftTest.ReadPhasePrefix` | fft-test.c:43-45 | the loads of the first m iterations are a prefix of those of the first n, for m <= n |
| `FftTest.ReadPhaseAt` | fft-test.c:43-45 | the k-th load is at read lane k, and carries the hardware's answer after everything issued before it |
| `FftTest.SessionOrder` | fft-test.c:36-49 | a run makes 16 accesses: 8 stores of `points[0..7]` in order to the write lane, then 8 loads of lanes 0..7 in order; every store precedes every load; no load is at the write lane; the load addresses strictly increase |
| `FftTest.RunFftTest` | fft-test.c:21-52 | `main` appends exactly the run's access sequence to the bus trace and reports, for each lane k, the two halves of the word loaded from lane k |
| `Numerals.BinaryValueAppend` | fft-test.c:25-34 | the value of a digit string split in two is the left value shifted past the right piece, plus the right value |
| `Numerals.ReadsAsHex` | fft-test.c:25-34 | a 32-digit binary literal has the value of the hexadecimal numeral spelled by its groups of four digits |

## Left out

- The `printf` of each reading (fft-test.c:48) is output formatting only. `RunFftTest` returns the readings it would print.
- Real volatile and MMIO semantics are left out: caching, bus timing and the accelerator's pipeline. Registers are only an ordered event trace. What a load returns comes from a response function that the model does not otherwise constrain. That function is fixed when the bus is created and depends only on the access history and the address, so a hardware answer that depends on time or pipeline latency rather than on the accesses (for instance, whether the transform has completed before the first read) is not represented.
- Addresses (`uintptr_t`) are unbounded naturals and the loop counter (`int`) is an unbounded integer, kept in `[0, 8]` by the loop invariants. All values that occur (`0x2000` … `0x2040`) are far from any overflow.
- The `points` array is a local array that is never written. It is modelled as an immutable sequence.
- `reg_read64` and `reg_write64` are modelled, but `main` never calls them. `main` does its own 32-bit volatile accesses.
- `main`'s `return 0` carries no information and is not modelled.
- Signed decoding of the halves, `2^bp` fixed-point scaling, an encode function and rejection of an out-of-range index do not exist in `fft-test.c`, so they are not modelled.
- `test_pts.py` is not part of this model. It generates the input words with floating-point complex exponentials and an external fixed-point library.
