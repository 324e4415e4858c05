# CHIP-8 execution engine, modelled in Dafny

This project models the interpreter core of a `no_std` CHIP-8 emulator written
in Rust (`struct Chip8` in `src/lib.rs`). The model covers the machine state,
the font and program loaders, reset, and one `tick`. A tick fetches two bytes
at the program counter, splits them into four nibbles, dispatches on the
nibble pattern to an instruction handler, and advances the program counter.

The model follows the code as it is written, including the places where it
departs from the usual CHIP-8 description:

- CALL (2nnn) first increments the stack pointer and then stores its *own*
  address in the slot it now names. Stack slot 0 is therefore never written.
  RETURN (00EE) reloads that address, and the default `+ 2` resumes after
  the CALL.
- 8xy5 and 8xy7 set VF to 1 on a *borrow*, as `overflowing_sub` reports it.
  8xy7 writes its difference into Vy, not Vx.
- Fx55 and Fx65 copy registers `0..x`, so register Vx itself is not copied.
- Cxnn masks the top 4 bits of a 32-bit random word, so Vx is at most 15.
- Dxyn wraps the sprite origin around the screen, but not the sprite's
  pixels. A set bit past column 63 or row 31 indexes the framebuffer out of
  range.
- 00E0 only paints the display. The framebuffer `pixels` is left as it was.
- 8xy6, 8xyE, Ex9E, ExA1 and Fx07–Fx33 have empty handlers and only advance
  the counter.
- The 0, 5, 9, E and F groups match on partial nibble patterns. For example,
  any `0??0` is 00E0, any `5xy?` is 5xy0, and any `Fx2?` is Fx29.
- Opcodes that no arm matches fall through and advance the counter by 2.

Every Rust panic the code can hit ends the tick as a `Fault`. There are two
kinds:

- `IndexOutOfBounds`: an array index out of range.
- `ArithmeticOverflow`: a `u16`/`usize` overflow under debug assertions.

Examples are a fetch at `pc >= 4095`, a RETURN on an empty stack, a CALL on
a full stack, a draw off the screen, a register block past the end of
memory, and a counter increment past `0xFFFF`.

Module layout, in dependency order:

- `Bits`:
  - the integer widths `u8`, `u16`, `u32` and `usize` as ranges of `int`;
  - bitwise and/or/xor, defined bit by bit over the low `n` bits;
  - shifts, `overflowing_add`/`overflowing_sub` and `to_be_bytes`.
- `Machine`:
  - the constants, `Panic`/`Result` and the state;
  - `new` and `reset`;
  - the stack invariant `Consistent`.
- `Opcodes`:
  - `fetch_opcode`, `decode`, `nnn`, `nn`;
  - the dispatch table of `execute`, as a function from nibbles to `Instr`;
  - an assembler (`Assemble`) that the table inverts.
- `Loader`: `load_font` and `load_program`.
- `Sprite`: the Dxyn handler and its two nested loops.
- `RegisterBlock`: the Fx55 and Fx65 handlers.
- `Interpreter`: the handlers, `execute` with its counter update, and `tick`
  (`Step`).
- `ControlFlow`, `Alu`, `Invariants`, `Programs`: the properties. They cover
  counter and stack discipline, the register instructions, facts that hold
  across ticks, and the short programs of `tests/unit_tests.rs` replayed on
  the model.

The random number generator is an argument of the tick: a `u32` is passed in
as the word that `next_u32` would return. It is used only by Cxnn.

## Model

| member | source | states |
|---|---|---|
| Bits.OrShifted | src/lib.rs:34-48 | Or-ing a value of fewer than `k` bits into a value shifted left by `k` is addition, which is how `nnn` and `nn` assemble their fields |
| Bits.BitSetDigit | src/lib.rs:484-485 | The test `sprite & (0x80 >> j) != 0` reads binary digit `7 - j` of the row: sprite rows are scanned most significant bit first |
| Bits.DigitAnd | src/lib.rs:418-420 | Digit `k` of `a & b` is set iff it is set in both operands |
| Bits.DigitOr | src/lib.rs:413-415 | Digit `k` of the bitwise or of `a` and `b` is set iff it is set in either operand |
| Bits.DigitXor | src/lib.rs:423-425 | Digit `k` of `a ^ b` is set iff it is set in exactly one operand |
| Bits.AndIdempotent | src/lib.rs:472 | Masking twice with the same mask equals masking once |
| Bits.TopNibbleSpec | src/lib.rs:471 | `(r >> 28) as u8` loses nothing in the cast: it is `r / 2^28`, below 16 |
| Machine.ResetIsNew | src/lib.rs:97-123 | `new` zeroes memory, every register, the index register, both timers, the stack pointer and every stack slot. It sets the counter to 0x200 and leaves the framebuffer dark, and the result satisfies the stack invariant. `reset` (src/lib.rs:194-204) yields that same state, whatever the state before it |
| Opcodes.RotateLeft4 | src/lib.rs:228 | `rotate_left(4)` on a byte swaps its nibbles: the low nibble becomes the high one and vice versa |
| Opcodes.Decode | src/lib.rs:225-232 | The four decoded nibbles recombine into the two fetched bytes, high nibble first |
| Opcodes.Nnn | src/lib.rs:34-42 | The or-and-shift accumulation yields `n2·256 + n3·16 + n4`, a 12-bit address |
| Opcodes.Nn | src/lib.rs:46-48 | Shifting `n3` left by 4 and or-ing in `n4` gives the byte `n3·16 + n4` |
| Opcodes.DecodeWord | src/lib.rs:217-232 | Decoding the big-endian bytes of a 16-bit word gives back the word's nibbles |
| Opcodes.WordOfDecode | src/lib.rs:217-232 | For every 16-bit word, the nibbles decoded from its big-endian bytes recombine into that word |
| Opcodes.DispatchAssembled | src/lib.rs:238-345 | The dispatch table maps the canonical encoding of each instruction back to that instruction, with its operands read by `nnn`, `nn` and the nibble fields |
| Opcodes.DispatchEncodable | src/lib.rs:238-345 | Every arm of the table except the fall-through yields an instruction with an encoding: its addresses are 12-bit |
| Loader.WriteBytesSpec | src/lib.rs:160-177 | The byte-copy loop succeeds iff the bytes fit below 4096. It then holds the bytes at consecutive addresses and leaves every other byte unchanged |
| Loader.BigEndianBytesSpec | src/lib.rs:171-176 | The program's byte stream is twice as long as the program, with word `k`'s high byte at `2k` and its low byte at `2k+1` |
| Loader.LoadFontSpec | src/lib.rs:160-166 | `load_font` panics iff the table runs past memory. Otherwise byte `k` is at `0x50 + k` and nothing outside the table changes |
| Loader.LoadProgramSpec | src/lib.rs:169-177 | `load_program` panics iff the program runs past memory. Otherwise word `k` is at `0x200 + 2k`, big-endian, and nothing outside the program changes |
| Sprite.DrawRow | src/lib.rs:484-501 | The only way the inner draw loop can panic is an index out of range |
| Sprite.DrawRows | src/lib.rs:482-502 | The only way the outer draw loop can panic is an index out of range |
| Sprite.DrawRowOk | src/lib.rs:484-501 | The inner loop panics iff a set bit of the row lands off the screen |
| Sprite.DrawRowHit | src/lib.rs:492-499 | Without a panic, the inner loop reports a collision iff a pixel under a set bit was lit |
| Sprite.DrawRowsOk | src/lib.rs:482-502 | The outer loop panics iff some sprite row lies outside memory or has a set bit off the screen |
| Sprite.DrawRowsPixel | src/lib.rs:482-502 | Without a panic, the draw flips exactly the pixels the sprite covers and keeps every other pixel |
| Sprite.DrawRowsHit | src/lib.rs:482-502 | Without a panic, the draw reports a collision iff some pixel under a set bit of the sprite was lit before the draw. Each row lies on its own screen line, so no row undoes another |
| Sprite.DrawSpriteSpec | src/lib.rs:476-503 | Dxyn succeeds iff the sprite fits, and a failure is an index panic. On success the sprite is XOR-ed into the frame at `(Vx % 64, Vy % 32)`, VF is 1 iff a lit pixel under the sprite was turned off and 0 otherwise, and nothing else changes |
| Sprite.DrawTwice | src/lib.rs:476-503 | Drawing the same sprite twice, from registers other than VF, restores the frame. The second draw reports a collision iff some pixel under the sprite was dark at the start |
| RegisterBlock.StoreFromSpec | src/lib.rs:534-536 | The Fx55 loop panics iff the block runs past memory. Otherwise it writes `V[k]` at `I + k` for each iterated `k` and leaves every other byte alone |
| RegisterBlock.LoadFromSpec | src/lib.rs:541-543 | The Fx65 loop panics iff the block runs past memory. Otherwise it loads `V[k]` from `I + k` for each iterated `k` and leaves every other register alone |
| RegisterBlock.StoreRegistersSpec | src/lib.rs:533-538 | Fx55 succeeds iff the block fits. It writes exactly `V0..V(x-1)` at `I..I+x-1`, not Vx, and changes nothing but memory |
| RegisterBlock.LoadRegistersSpec | src/lib.rs:540-545 | Fx65 succeeds iff the block fits. It loads exactly `V0..V(x-1)` from `I..I+x-1`, not Vx, and changes nothing but the registers |
| RegisterBlock.StoreThenLoad | src/lib.rs:533-545 | A store of V0..V(x-1) followed by a load of the same block gives those values back, even when the register file has been replaced in between (for example by a zeroed one): V0..V(x-1) come from the stored block and the other registers keep the replacement's values. A load straight over the registers just stored changes nothing |
| RegisterBlock.EmptyBlock | src/lib.rs:533-545 | With `x = 0` neither Fx55 nor Fx65 copies anything |
| ControlFlow.ExecutePc | src/lib.rs:234-352 | For every instruction, `execute` panics exactly when its index or overflow condition fails. Otherwise: jumps set the counter without an increment, RETURN resumes 2 past the saved address, a taken skip adds 4, and everything else adds 2 |
| ControlFlow.ExecuteBlock | src/lib.rs:338-352 | A fitting Fx55 or Fx65 runs its register-block handler and then advances the counter by 2 |
| ControlFlow.ReturnSpec | src/lib.rs:364-367 | RETURN from any stack depth succeeds iff the stack pointer names a slot above 0 and the saved address has room for `+ 2`. It then resumes 2 past the saved address with the stack pointer one lower, and changes nothing else |
| ControlFlow.SetIndexSpec | src/lib.rs:460-462 | Annn loads `nnn` into the index register, adds 2 to the counter, and changes nothing else |
| ControlFlow.CallOnFullStack | src/lib.rs:375-379 | A CALL with the stack pointer at 15 indexes past the 16-slot stack |
| ControlFlow.ReturnOnEmptyStack | src/lib.rs:364-367 | A RETURN with the stack pointer at 0 underflows it |
| ControlFlow.CallSpec | src/lib.rs:375-379 | CALL raises the stack pointer, stores its own address in the slot it names, jumps to `nnn`, and changes nothing else |
| ControlFlow.CallThenReturn | src/lib.rs:364-379 | A CALL directly followed by a RETURN resumes 2 past the CALL with the stack pointer restored. The only trace left is the slot the CALL wrote |
| ControlFlow.StubsOnlyAdvance | src/lib.rs:505-530 | The empty handlers, 00E0 and the unmatched opcodes change only the counter: they add 2, or panic when that overflows |
| ControlFlow.ExecuteUnchanged | src/lib.rs:234-545 | Only Dxyn touches the framebuffer, only Fx55 writes memory, only Annn sets the index register, and no instruction touches a timer. Only CALL and RETURN move the stack pointer, and only CALL writes the stack, never slot 0. The skips, jumps, CALL, RETURN and Annn leave every register unchanged |
| Alu.SetSpec | src/lib.rs:397-410 | 6xnn and 8xy0 copy their value into Vx, and every other register keeps its value |
| Alu.AddImmSpec | src/lib.rs:402-405 | 7xnn adds modulo 256 and leaves VF alone unless VF is the target |
| Alu.AddRegSpec | src/lib.rs:428-432 | 8xy4 writes the sum modulo 256 into Vx. Then VF is 1 iff the sum exceeded 255, and 0 otherwise |
| Alu.SubRegSpec | src/lib.rs:435-439 | 8xy5 writes `Vx - Vy` modulo 256 into Vx. Then VF is 1 iff `Vx < Vy`, that is, on a borrow |
| Alu.SubReversedSpec | src/lib.rs:445-449 | 8xy7 writes `Vy - Vx` modulo 256 into Vy. Then VF is 1 iff `Vy < Vx` |
| Alu.BitwiseSpec | src/lib.rs:413-425 | 8xy1, 8xy2 and 8xy3 combine Vx and Vy digit by digit into Vx and change no other register |
| Alu.RandomSpec | src/lib.rs:470-473 | Cxnn sets Vx to the top nibble of the random word masked by `nn`. The result is at most 15, has no digit outside `nn`, and is unchanged by a second mask |
| Invariants.StepConsistent | src/lib.rs:211-215 | A tick that does not panic keeps the stack invariant: the stack pointer is below 16, slot 0 holds 0, and every saved address can be fetched |
| Invariants.ExecuteConsistent | src/lib.rs:234-379 | Every instruction fetched below the last byte of memory that runs without a panic keeps the stack invariant |
| Invariants.OnlyReturnOverflows | src/lib.rs:211-352 | From a consistent state, the only integer overflow a tick can hit is a RETURN with the stack pointer at 0 |
| Invariants.RunConsistent | src/lib.rs:211-215 | The stack invariant holds after every sequence of ticks that does not panic |
| Invariants.RunKeepsTimers | src/lib.rs:234-545 | No sequence of ticks changes either timer |
| Invariants.LoadedConsistent | src/lib.rs:97-177 | A fresh machine with a font and a program loaded satisfies the stack invariant after every run that does not panic |
| Programs.FetchLoaded | src/lib.rs:169-232 | With the counter on word `k` of a loaded program, the fetch returns that word's big-endian bytes, and its nibbles recombine into the word |
| Programs.RunsAssembled | src/lib.rs:169-352 | A loaded word that encodes an instruction is dispatched to exactly that instruction, and the tick executes it |
| Programs.RunsAt | src/lib.rs:211-232 | A tick whose counter points at an instruction's two encoded bytes runs that instruction |
| Programs.JumpTest | tests/unit_tests.rs:69-77 | The program `1202 1FFF` moves the counter to 0x202 and then to 0xFFF |
| Programs.SkipTests | tests/unit_tests.rs:82-99 | With V0 = 0xFF, `30FF` skips to 0x204 and `3000` advances to 0x202 |
| Programs.SkipIfNeTests | tests/unit_tests.rs:100-116 | With V0 = 0xFF, `4000` skips to 0x204 and `40FF` advances to 0x202 |
| Programs.SkipIfEqRegTests | tests/unit_tests.rs:118-136 | `5010` with V1 = 0xFF skips to 0x204 when V0 = 0xFF, and advances to 0x202 when V0 = 0 |
| Programs.SetImmTest | tests/unit_tests.rs:138-145 | `600A` sets V0 to 0x0A and advances to 0x202 |
| Programs.AddImmTest | tests/unit_tests.rs:147-155 | `7009` with V0 = 1 sets V0 to 0x0A and advances to 0x202 |
| Programs.AddImmWrapTest | tests/unit_tests.rs:157-165 | `7001` with V0 = 0xFF wraps V0 to 0 and advances to 0x202 |
| Programs.StoreTest | tests/unit_tests.rs:167-192 | `FF55` with I = 0x203 and every register 0xFF stores 0xFF at 0x203..0x211. Address 0x212 keeps its old value, where the test expects 0xFF |
| Programs.StoredRun | src/lib.rs:533-538 | Fx55 over registers that all hold `v` fills the block at I with `v` |
| Programs.LoadTest | tests/unit_tests.rs:194-208 | `FF65` with I = 0x203 over a run of 0xFF bytes loads 0xFF into V0..VE. VF keeps its old value, where the test expects 0xFF |
| Programs.LoadedRun | src/lib.rs:540-545 | Fx65 over a block that holds `v` throughout sets V0..V(x-1) to `v` and keeps the other registers |

## Left out

- The display (`embedded_graphics` `DrawTarget`) is not modelled. Its writes are side effects whose errors are ignored, so 00E0 and Dxyn are modelled by their effect on `pixels` and VF only. The display point that Dxyn computes from `padding` and `scale` is also left out: with the default scale `(1, 1)` and padding 0 that arithmetic cannot overflow, but a huge scale set by `set_scale` could, and that is not modelled.
- The keypad (`src/keypad.rs`) and the ROM images (`src/roms.rs`) are not part of this model. No handler of this revision reads the keypad: Ex9E, ExA1 and Fx0A have empty bodies.
- The random number generator is not modelled: the word `next_u32` would return is an argument of `Step` and `Execute`.
- `set_scale`, `set_padding`, the `debug` flag and the getters (`get_current_op`, `get_program_memory`, `get_program_counter`, `get_index`, `get_stack`, `get_registers`) are left out. They only copy fields in or out.
- Timers: no code of this revision decrements or sets `delay_timer` or `sound_timer`, so they are state fields that never change (`Invariants.RunKeepsTimers`). Nothing is modelled about time.
- `_0nnn` is never called by `execute`: a `0nnn` opcode whose last nibble is neither 0 nor E falls through to the no-op arm. It has no member of its own.
- Build-mode arithmetic: additions are modelled with debug-mode overflow checks, so an overflow panics. A release build would wrap instead, and that is not modelled.
- Invariants.Run: the host loop is modelled as one tick per random word in a finite sequence. An unbounded loop is not modelled.
- The unit tests call `load_program` with a byte slice and use `write_register` and `set_index`, which this revision of `Chip8` does not have (`load_program` takes `[u16; S]`). `Programs` therefore states each test over any state whose memory and registers hold the bytes the test sets up, rather than over a constructed fixture.
- The Fx55 and Fx65 tests expect Vx to be copied too (an inclusive range `0..=x`), but the loops run over `0..x`. The model follows the loops, and `Programs.StoreTest` and `Programs.LoadTest` state the outcome the code produces at address 0x212 and in VF.
