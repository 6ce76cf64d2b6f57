# CHIP-8 CPU core in Dafny

This project models the interpreter core of a small CHIP-8 emulator written in C++. It covers:

- the `CPU` record: 4 KiB of memory, sixteen byte registers V0..VF, the index register I, the program counter, the return stack, the delay and sound timers, and a 32×64 framebuffer of 32-bit colours;
- `initEmulator` (font and program placement);
- `cpuCycle` (timer countdown, big-endian fetch, execute);
- `parseInstruction` (masked decode and execution of the 34 word patterns it recognises; every other word, including SYS 0nnn, only advances pc);
- `drawSprite` (the XOR blitter with wrap-around and the collision flag in VF).

Everything is an immutable `Cpu` value transformed by pure functions.

Modules, one per part of the program:

- `Bits`: bytes as integers 0..255. The `|`, `&` and `^` operators are defined bit by bit.
- `Machine`: the constants of the emulator header, the machine state, the font table, and loading a program image.
- `Instructions`: the instruction set as a datatype, the decoder as the code writes it (first matching mask wins), an encoder, and both round trips.
- `Sprite`: `drawSprite`, defined row by row and column by column as the loops run, with a closed-form contract for the whole sprite.
- `Operations`: one function per instruction, `Execute` for a decoded instruction, and `Step` for `parseInstruction` (pc += 2, then decode and execute).
- `Emulator`: `cpuCycle`, namely `Tick`, `Fetch` and `Cycle`.
- `Properties`: facts that relate several instructions.

Host dependencies become parameters:

- The key state read through `GetKeyState` is a function `down: Key -> bool` over the virtual keys 0..F.
- The value of `std::rand()` is a natural-number argument `rand`.

Undefined behaviour in the C++ becomes a precondition, gathered in `Operations.Defined` and in the requires of `Emulator.Fetch`:

- RET on an empty stack;
- SKP/SKNP with Vx ≥ 16, which indexes past the key-binding table;
- memory accesses at or past 0x1000, in the blit, LD B, LD [I] and LD Vx,[I];
- a fetch with pc ≥ 0xFFF.

## Behaviour of the code as written

The model follows the code, including where it departs from common CHIP-8 descriptions:

- **Loading.** Loading never fails. The code reads at most 0x1000 − 0x200 bytes of the image and ignores the rest, so `Machine.Load` is total and cuts long images off.
- **RND.** The code masks `std::rand() % 255`, so the value 0xFF is never produced, where common descriptions ask for a uniform random byte.
- **Undefined cases.** The instructions are not total: the C++ has the undefined cases listed above, and the model excludes them by precondition.
- **SUB / SUBN.** VF is set by a strict `>`, so equal operands give VF = 0.
- **SHR / SHL.** Both read Vy, not Vx. SHL stores `Vy & 0x80` in VF, so VF is 0 or 0x80, not 0 or 1.
- **Flag-first arithmetic.** ADD Vx,byte sets VF on carry. ADD, SUB, SUBN, SHR and SHL write VF before computing Vx, so an operand in VF is read with the new flag in it. The model reproduces this aliasing.
- **SKP / SKNP.** The key test runs the opposite way to the instruction names: SKP skips when the key is *not* held.
- **LD Vx, K.** It stores the first key that is *not* held. When every key is held, pc steps back 2 and the instruction repeats.
- **LD [I], Vx and LD Vx, [I].** They transfer V0..V(x−1) only, not Vx. Afterwards I grows by x + 1, wrapping at 16 bits.
- **ADD I, Vx.** It keeps the low 12 bits of the 16-bit sum in I and sets VF when the sum exceeds 0xFFF.
- **LD Vx, DT.** It stores `DT / 8` truncated to a byte. LD DT, Vx and LD ST, Vx store Vx·8.
- **Timer order.** A cycle decrements the timers *before* executing its instruction. So LD DT, Vx followed in the next cycle by LD Vx, DT reads back Vx − 1, not Vx (`Properties.DelayReadAfterTick`).
- **Pixel colours.** A pixel is lit exactly when it holds `COLOR_WHITE`. Drawing writes `COLOR_WHITE` or `COLOR_BLACK` into every footprint pixel.
  - Drawing a sprite twice gives back the on/off image.
  - It gives back the exact colours only on a screen holding just those two values. The zero-initialised screen does not qualify.
- **Double-draw VF.** The second of two identical draws sets VF exactly when some set sprite bit fell on a pixel that was dark before the first draw. It is therefore not always 1 for a non-empty sprite. What holds in general is that one of the two draws sets VF.

## Model

| member | source | states |
|---|---|---|
| Bits.BitOr | src/Operations.cpp:89-94 | every bit of the result is the OR of the operands' bits; the result is no smaller than either operand |
| Bits.BitAnd | src/Operations.cpp:96-101 | every bit of the result is the AND of the operands' bits; the result is no larger than either operand |
| Bits.BitXor | src/Operations.cpp:103-108 | every bit of the result is the XOR of the operands' bits |
| Bits.XorInvolution | src/Operations.cpp:103-108 | XOR with the same byte twice gives the original byte |
| Machine.Glyph | include/Emulator.h:27-44 | the glyph of digit d is five bytes, those at 5·d in the font table |
| Machine.FontLayout | include/Emulator.h:21-44 | the font is 16 glyphs of 5 bytes (80 in all), ends before the load address 0x200, and the CPU rate is 8 × 60 = 480 |
| Machine.Blank | include/Emulator.h:55-65 | a fresh CPU record has I = 0, pc = 0x200, an empty stack, zero timers, memory and registers, and every pixel 0 (so none lit) |
| Machine.IsOn | src/Emulator.cpp:60 | a pixel counts as lit only when it holds COLOR_WHITE, so neither COLOR_BLACK nor the initial 0 is lit |
| Machine.Next | src/Operations.cpp:15 | the pc after one word is 2 further on modulo 2^16, and never the same pc |
| Machine.Load | src/Emulator.cpp:12-31 | the font sits at 0x100; the first min(length, 0xE00) image bytes sit at 0x200 with zeros after them; everything else is as in a fresh record |
| Instructions.Decode | src/Operations.cpp:17-277 | the if-chain of masked pattern tests, first match wins, every other word a no-op; what it means is stated by DecodeEncode and EncodeDecode below |
| Instructions.DecodeEncode | src/Operations.cpp:17-277 | decoding the word of any instruction gives that instruction back (the masks pick out exactly the fields the encoding put in) |
| Instructions.EncodeDecode | src/Operations.cpp:17-277 | every word the decoder recognises is the encoding of the instruction it decodes to |
| Sprite.Blit | src/Emulator.cpp:59-66 | a drawn pixel is lit iff the sprite bit differs from its old lit state, and is left WHITE or BLACK |
| Sprite.ColumnWrap | src/Emulator.cpp:57 | the wrapped column `(x + j) % 64` and the offset back from x undo each other |
| Sprite.RowWrap | src/Emulator.cpp:57 | the wrapped row `(y + i) % 32` and the offset back from y undo each other |
| Sprite.DrawRow | src/Emulator.cpp:56-67 | the inner loop XORs columns j..7 of one sprite row onto one screen row, leaves every other pixel alone, and reports a collision iff some set bit met a lit pixel |
| Sprite.DrawRows | src/Emulator.cpp:53-68 | the outer loop over rows i..height−1: each wrapped footprint pixel becomes Blit of its old value and its sprite bit, the rest is unchanged, and the flag records a collision in any row |
| Sprite.DrawSprite | src/Emulator.cpp:50-69 | only the screen and VF change; VF is 0 or 1, and 1 iff some lit pixel went dark; each footprint pixel is XORed with bit 7−j of memory[I+i] and every other pixel is unchanged |
| Sprite.CollisionIsTurnOff | src/Emulator.cpp:60-65 | a set sprite bit meeting a lit pixel is the same as some pixel going from lit to dark |
| Sprite.DrawFlag | src/Emulator.cpp:51-65 | VF after a draw is 1 iff some set sprite bit lands on a lit pixel |
| Sprite.DrawTwicePixel | src/Emulator.cpp:59-66 | one pixel drawn over twice with the same bit gets its lit state back, and its colour back if it was WHITE or BLACK |
| Sprite.DrawTwiceRestores | src/Emulator.cpp:56-66 | two identical draws give every pixel its on/off state back; on a normalised screen the whole machine comes back except VF |
| Sprite.SameScreen | src/Emulator.cpp:56-66 | on a normalised screen two identical draws give the same framebuffer back |
| Sprite.DrawTwiceFlags | src/Emulator.cpp:56-66 | the second draw's VF is 1 iff a set bit landed on a pixel dark before the first draw; a sprite with a set bit raises VF in one of the two draws; from a dark footprint the second draw's VF is 1 iff the sprite has a set bit |
| Operations.ClearScreen | src/Operations.cpp:18-25 | every pixel becomes BLACK and so dark; nothing else changes |
| Operations.Return | src/Operations.cpp:27-31 | the popped stack with the new pc pushed back is the old stack; only pc and the stack change |
| Operations.CallSubroutine | src/Operations.cpp:39-44 | the stack grows by the current pc on top and pc becomes the address; only pc and the stack change |
| Operations.AddImmediate | src/Operations.cpp:74-80 | for x ≠ F the new Vx plus 256·VF is the unmasked sum; for x = F the flag is overwritten by the masked sum with the carry; other registers unchanged |
| Operations.AddRegisters | src/Operations.cpp:110-116 | for x, y ≠ F the new Vx plus 256·VF is Vx + Vy; for x ≠ F VF is 1 exactly on carry, and with y = F the new flag is the addend; for x = F, VF is overwritten by the carry plus Vy (or plus the carry again when y = F) modulo 256; other registers unchanged |
| Operations.SubtractRegisters | src/Operations.cpp:118-124 | the new Vx plus Vy is Vx modulo 256; VF = 1 iff Vx > Vy strictly and 0 otherwise; with y = F the new flag is the subtrahend; with x = F, VF plus Vy is the flag modulo 256, and 0 when y = F too |
| Operations.SubtractReversed | src/Operations.cpp:134-140 | the new Vx plus Vx is Vy modulo 256; VF = 1 iff Vy > Vx strictly and 0 otherwise; with y = F the new flag is the minuend; with x = F, VF plus the flag is Vy modulo 256, and 0 when y = F too |
| Operations.ShiftRight | src/Operations.cpp:126-132 | 2·Vx + VF is the old Vy; VF is at most 1; with y = F the new VF is the old VF's low bit and Vx becomes 0; with x = F, VF becomes Vy halved, and 0 when y = F too |
| Operations.ShiftLeft | src/Operations.cpp:142-148 | Vx + 2·VF is 2·Vy; VF is 0x80 iff Vy ≥ 0x80 and 0 iff Vy < 0x80; with y = F Vx becomes 0; with x = F, VF becomes 2·Vy less 256 when the top bit was set, and 0 when y = F too |
| Operations.ByteSub | src/Operations.cpp:123 | unsigned-char subtraction: the plain difference when it is not negative, otherwise the difference plus 256 |
| Operations.ByteDouble | src/Operations.cpp:147 | unsigned-char doubling: 2·a below 0x80, and 2·a − 256 once the top bit falls off |
| Operations.RandomMasked | src/Operations.cpp:169-174 | the random value has only bits set in kk, is at most kk, and is never 0xFF |
| Operations.ReadDelay | src/Operations.cpp:202-206 | while DT < 2048, Vx is the number of whole 8-tick units in DT; nothing else changes |
| Operations.FirstReleased | src/Operations.cpp:212-217 | the key found is not held and every earlier key is held; none is found iff every key from k on is held |
| Operations.WaitForKey | src/Operations.cpp:208-219 | with some key free, Vx becomes the lowest key that is not held; with every key held only pc moves back by 2 |
| Operations.AddToIndex | src/Operations.cpp:233-239 | I stays below 0x1000; for I < 0x1000 the new I plus 0x1000·VF is I + Vx; only I and VF change |
| Operations.PointToGlyph | src/Operations.cpp:241-245 | I becomes 0x100 + 5·Vx for every Vx (past the font for Vx ≥ 16); with the font resident and Vx < 16 those five bytes are the glyph for Vx; only I changes |
| Operations.GlyphInFont | include/Emulator.h:27-44 | with the font resident, the glyph of a digit d < 16 is the five bytes at 0x100 + 5·d |
| Operations.WriteBcd | src/Operations.cpp:247-253 | three decimal digits (hundreds ≤ 2) whose value 100a + 10b + c is Vx; every other cell, I and the registers unchanged |
| Operations.StoreRegisters | src/Operations.cpp:255-263 | memory[I+k] = Vk for k < x, every other cell unchanged, I grows by x + 1 modulo 2^16 |
| Operations.LoadRegisters | src/Operations.cpp:265-273 | Vk = memory[I+k] for k < x, Vx..VF unchanged, I grows by x + 1 modulo 2^16 |
| Operations.Defined | src/Operations.cpp:27-273 | an instruction is defined unless it is RET on an empty stack, SKP/SKNP with Vx ≥ 16, or a draw, LD B, LD [I] or LD Vx,[I] whose last address is at or past 0x1000 |
| Operations.SkipIf | src/Operations.cpp:51 | a skip whose condition holds moves pc 2 further modulo 2^16; otherwise nothing changes |
| Operations.SetRegister | src/Operations.cpp:67-174 | Vx holds the new value and every other register and all other state are unchanged |
| Operations.ExecuteLogic | src/Operations.cpp:67-174 | LD Vx,byte puts kk in Vx, LD Vx,Vy copies Vy, OR/AND/XOR put the bitwise result, RND puts `kk & (rand % 255)`; every other register and all other state unchanged |
| Operations.ExecuteArithmetic | src/Operations.cpp:74-148 | ADD Vx,byte, ADD, SUB, SHR, SUBN and SHL act as the per-instruction functions above state; only registers change |
| Operations.ExecuteJump | src/Operations.cpp:27-167 | RET pops pc; JP sets pc to nnn; CALL pushes pc and sets it to nnn; JP V0 sets pc to V0 + nnn; nothing but pc and the stack changes |
| Operations.ExecuteSkip | src/Operations.cpp:46-200 | SE byte skips iff Vx = kk, SNE byte iff Vx ≠ kk, SE reg iff Vx = Vy, SNE reg iff Vx ≠ Vy, SKP iff the key in Vx is not held, SKNP iff it is; only pc changes, by 0 or 2 |
| Operations.ExecuteSystem | src/Operations.cpp:157-273 | LD I sets I to nnn; LD DT and LD ST store 8·Vx in their timer; the other Fx instructions act as their functions above state; stack and screen untouched, only LD B and LD [I] write memory, only LD Vx,K moves pc |
| Operations.Execute | src/Operations.cpp:17-277 | frame conditions per instruction: which of screen, memory, stack, timers and pc each instruction may change |
| Operations.Advance | src/Operations.cpp:15 | pc moves 2 further modulo 2^16 and nothing else changes |
| Operations.Step | src/Operations.cpp:12-278 | an unmatched word changes only pc, by 2; every non-control instruction ends with pc advanced by 2; a skip advances it by 2 or 4 |
| Emulator.Countdown | src/Emulator.cpp:34-35 | a running timer loses one, a stopped one stays at zero |
| Emulator.Tick | src/Emulator.cpp:34-35 | both timers count down by one when positive and stay at zero otherwise; nothing else changes |
| Emulator.TicksCountDown | src/Emulator.cpp:34-35 | after n ticks a timer holds max(t − n, 0) and nothing else has changed |
| Emulator.Fetch | src/Emulator.cpp:37 | the word's high byte is memory[pc] and its low byte memory[pc+1] |
| Emulator.FetchDecode | src/Emulator.cpp:37-40 | an instruction stored high byte first at pc is fetched and decoded as itself |
| Emulator.FetchLoaded | src/Emulator.cpp:28-37 | the first word executed after loading is built from the first two image bytes |
| Emulator.Cycle | src/Emulator.cpp:33-41 | timers tick down unless the instruction writes them; non-control instructions advance pc by 2; an unmatched word only ticks and advances pc |
| Properties.CallThenReturn | src/Operations.cpp:27-44 | CALL jumps to `code & 0xFFF` and pushes the next pc; a RET run with that stack returns to the instruction after the CALL with the old stack |
| Properties.DelayRoundTrip | src/Operations.cpp:202-225 | LD DT, Vx then LD Vy, DT with no tick in between gives Vy = Vx |
| Properties.DelayReadAfterTick | src/Emulator.cpp:33-35 | with a tick between them, the same pair gives Vy = Vx − 1 (or 0) |
| Properties.StoreThenLoad | src/Operations.cpp:255-273 | LD [I], Vx then LD Vx, [I] from the same I gives V0..V(x−1) back and leaves the rest as they were |
| Properties.StoreLeavesOutVx | src/Operations.cpp:259-261 | LD [I], Vx does not store Vx itself: memory[I+x] is unchanged |
| Properties.XorTwice | src/Operations.cpp:103-108 | XOR Vx, Vy twice restores the whole machine when x ≠ y; with x = y it clears Vx |
| Properties.SkipPairs | src/Operations.cpp:46-65 | SE/SNE with a byte, SE/SNE with a register and SKP/SKNP are complementary: exactly one of each pair skips |
| Properties.KeySkipsInverted | src/Operations.cpp:184-200 | SKP skips iff the key in Vx is not held; SKNP skips iff it is |
| Properties.WaitKeyRepeats | src/Operations.cpp:208-219 | with every key held, a step of LD Vx, K leaves the machine exactly as it was |
| Properties.LoadedGlyph | src/Operations.cpp:241-245 | after loading, LD F, Vx with Vx = d < 16 points I at the glyph of d |
| Properties.AddCarryExample | src/Operations.cpp:110-116 | ADD V3, V4 (word 0x8344) with V3 = 0xFF and V4 = 1 gives V3 = 0 and VF = 1 |

## Left out

- The window, rendering, texture upload and frame pacing (`src/Window.cpp`), together with `CYCLE_LENGTH`, because they are host glue with no effect on the machine state.
- Opening and reading the ROM file. `initEmulator` exits the process when the file cannot be opened. The model takes the file's bytes as a sequence, because file I/O is outside the core.
- The trace output through `fmt::print`, because it never changes the machine state.
- The mapping of virtual keys to host key codes (`KEY_BINDINGS`, `GetKeyState`), because host input is replaced by the parameter `down`.
- The distribution of `std::rand`, because it is a foreign call. Its value is the parameter `rand`.
- The unused `isSuper` flag and the `ROM_NAME` constant.
- The `short` element type of the return stack, because the model keeps 16-bit pc values. A `unsigned short` pushed as `short` and popped back is the same value.
- Operations.ReadDelay: the unit bracket is stated for DT < 2048. Above that the byte truncation wraps, which the function computes.
- Operations.AddToIndex: the sum identity is stated for I < 0x1000. I reaches 0x1000 or more only when LD [I], Vx or LD Vx, [I] moves it past the end of memory; the function still computes the 16-bit sum there.
- Operations.Execute: the contract states only which parts each instruction may change. The effect of each instruction is stated by the group function it dispatches to (ExecuteLogic, ExecuteArithmetic, ExecuteJump, ExecuteSkip, ExecuteSystem), except CLS and DRW, stated by ClearScreen and DrawSprite.
- Instructions.EncodeDecode: it holds for recognised words only, because every unrecognised word decodes to the same no-op.
