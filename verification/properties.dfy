/** Properties that relate several instructions: subroutine call and
    return, timer and register-file round trips, the paired skip tests, the
    waiting key read, and the font after loading. */
module Properties {
  import opened Bits
  import opened Machine
  import opened Instructions
  import opened Operations
  import opened Emulator

  /** A CALL pushes the address after itself and jumps to the low twelve
      bits of the word; a later RET, wherever it runs with that stack, comes
      back to the instruction after the CALL with the stack as it was. */
  lemma CallThenReturn(c: Cpu, code: U16, d: Cpu, down: Key -> bool, rand: nat)
    requires Decode(code).Call?
    ensures var called := Step(c, code, down, rand);
      && called.pc == code % 0x1000
      && called.stack == c.stack + [Next(c.pc)]
      && (d.stack == called.stack ==>
            Decode(0x00EE) == Ret
            && Step(d, 0x00EE, down, rand).pc == Next(c.pc)
            && Step(d, 0x00EE, down, rand).stack == c.stack)
  {
    EncodeDecode(code);
    assert Decode(0x00EE) == Ret;
    assert Step(c, code, down, rand) == Execute(Advance(c), Decode(code), down, rand);
    ExecuteOfJump(Advance(c), Decode(code), down, rand);
    var called := Step(c, code, down, rand);
    assert called.stack == c.stack + [Next(c.pc)];
    if d.stack == called.stack {
      assert Step(d, 0x00EE, down, rand) == Execute(Advance(d), Ret, down, rand);
      ExecuteOfJump(Advance(d), Ret, down, rand);
      assert Step(d, 0x00EE, down, rand).stack + [Step(d, 0x00EE, down, rand).pc] == c.stack + [Next(c.pc)];
    }
  }

  /** Writing the delay timer from Vx and reading it back into Vy, with no
      tick in between, gives Vy the old value of Vx. */
  lemma DelayRoundTrip(c: Cpu, x: Reg, y: Reg, down: Key -> bool, rand: nat)
    ensures Execute(Execute(c, SetDelay(x), down, rand), ReadDelay(y), down, rand).registers[y] == c.registers[x]
  {
    var written := Execute(c, SetDelay(x), down, rand);
    assert written.delayTimer == c.registers[x] as int * TimerScale;
  }

  /** A tick between the write and the read, as when Fx15 and Fx07 run in
      consecutive cycles, gives Vy one less than Vx (or 0). */
  lemma DelayReadAfterTick(c: Cpu, x: Reg, y: Reg, down: Key -> bool, rand: nat)
    ensures var read := Execute(Tick(Execute(c, SetDelay(x), down, rand)), ReadDelay(y), down, rand);
      read.registers[y] == if c.registers[x] > 0 then c.registers[x] - 1 else 0
  {
    var written := Execute(c, SetDelay(x), down, rand);
    assert written.delayTimer == c.registers[x] as int * TimerScale;
  }

  /** Storing V0..V(x-1) at I and loading them again from the same I gives
      those registers back; the others keep the values of the machine the
      load runs on. */
  lemma StoreThenLoad(c: Cpu, x: Reg, d: Cpu)
    requires x == 0 || c.i + x <= MemorySize
    requires d.memory == StoreRegisters(c, x).memory && d.i == c.i
    ensures forall k | 0 <= k < x :: LoadRegisters(d, x).registers[k] == c.registers[k]
    ensures forall k | x <= k < RegisterCount :: LoadRegisters(d, x).registers[k] == d.registers[k]
  {
  }

  /** Fx55 leaves Vx itself out: the cell just past the stored block keeps its old value. */
  lemma StoreLeavesOutVx(c: Cpu, x: Reg)
    requires c.i + x < MemorySize
    ensures StoreRegisters(c, x).memory[c.i + x] == c.memory[c.i + x]
  {
  }

  /** XOR with the same register twice restores Vx when y differs from x,
      and clears it when y is x. */
  lemma XorTwice(c: Cpu, x: Reg, y: Reg, down: Key -> bool, rand: nat)
    ensures var twice := Execute(Execute(c, Xor(x, y), down, rand), Xor(x, y), down, rand);
      x != y ==> twice == c
    ensures x == y ==> Execute(c, Xor(x, y), down, rand).registers[x] == 0
  {
    var once := Execute(c, Xor(x, y), down, rand);
    if x != y {
      XorInvolution(c.registers[x], c.registers[y]);
      assert Execute(once, Xor(x, y), down, rand).registers == c.registers;
    } else {
      var v := c.registers[x];
      assert BitXor(v, v) < Pow2(8) by { assert Pow2(8) == 0x100; }
      assert Pow2(8) == 0x100;
      BitsDetermine(BitXor(v, v), 0, 8);
    }
  }

  /** The tests of a skip pair are complementary: on the same machine exactly
      one of them skips. */
  lemma SkipPairs(c: Cpu, x: Reg, y: Reg, kk: Byte, down: Key -> bool, rand: nat)
    ensures Execute(c, SkipEqByte(x, kk), down, rand).pc != Execute(c, SkipNeByte(x, kk), down, rand).pc
    ensures Execute(c, SkipEqReg(x, y), down, rand).pc != Execute(c, SkipNeReg(x, y), down, rand).pc
    ensures c.registers[x] < 0x10 ==>
      Execute(c, SkipKey(x), down, rand).pc != Execute(c, SkipNoKey(x), down, rand).pc
  {
    ExecuteOfSkip(c, SkipEqByte(x, kk), down, rand);
    ExecuteOfSkip(c, SkipNeByte(x, kk), down, rand);
    ExecuteOfSkip(c, SkipEqReg(x, y), down, rand);
    ExecuteOfSkip(c, SkipNeReg(x, y), down, rand);
    if c.registers[x] < 0x10 {
      ExecuteOfSkip(c, SkipKey(x), down, rand);
      ExecuteOfSkip(c, SkipNoKey(x), down, rand);
    }
  }

  /** A return, jump or call runs as ExecuteJump states it. */
  lemma ExecuteOfJump(c: Cpu, ins: Instruction, down: Key -> bool, rand: nat)
    requires IsJump(ins) && Defined(c, ins)
    ensures Execute(c, ins, down, rand) == ExecuteJump(c, ins)
  {
  }

  /** A skip runs as ExecuteSkip states it. */
  lemma ExecuteOfSkip(c: Cpu, ins: Instruction, down: Key -> bool, rand: nat)
    requires IsSkip(ins) && Defined(c, ins)
    ensures Execute(c, ins, down, rand) == ExecuteSkip(c, ins, down)
  {
  }

  /** An index, timer, key or memory instruction runs as ExecuteSystem states it. */
  lemma ExecuteOfSystem(c: Cpu, ins: Instruction, down: Key -> bool, rand: nat)
    requires !(IsFlow(ins) || IsRegisterOp(ins) || ins.Cls? || ins.Draw? || ins.Nop?) && Defined(c, ins)
    ensures Execute(c, ins, down, rand) == ExecuteSystem(c, ins, down)
  {
  }

  /** SKP skips when the key in Vx is not held and SKNP when it is: the key
      test runs the opposite way to the instruction names. */
  lemma KeySkipsInverted(c: Cpu, x: Reg, down: Key -> bool, rand: nat)
    requires c.registers[x] < 0x10
    ensures Execute(c, SkipKey(x), down, rand).pc == (if down(c.registers[x]) then c.pc else Next(c.pc))
    ensures Execute(c, SkipNoKey(x), down, rand).pc == (if down(c.registers[x]) then Next(c.pc) else c.pc)
  {
  }

  /** With every key held, Fx0A leaves the whole machine as it was, so the
      same word is fetched again on the next cycle. */
  lemma WaitKeyRepeats(c: Cpu, code: U16, down: Key -> bool, rand: nat)
    requires Decode(code).WaitKey?
    requires forall k: Key :: down(k)
    ensures Step(c, code, down, rand) == c
  {
    var a, ins := Advance(c), Decode(code);
    assert Step(c, code, down, rand) == Execute(a, ins, down, rand);
    ExecuteOfSystem(a, ins, down, rand);
    assert FirstReleased(down, 0).None?;
    assert (a.pc + 0x1_0000 - 2) % 0x1_0000 == c.pc;
  }

  /** After loading, register value d < 16 and Fx29 point I at the five
      bytes of the glyph for d. */
  lemma LoadedGlyph(rom: seq<Byte>, x: Reg, d: Byte, down: Key -> bool, rand: nat)
    requires d < 0x10
    ensures var c := Load(rom).(registers := Load(rom).registers[x := d]);
      var r := Execute(c, LoadGlyph(x), down, rand);
      r.i + GlyphHeight <= MemorySize && r.memory[r.i .. r.i + GlyphHeight] == Glyph(d)
  {
    var loaded := Load(rom);
    var c := loaded.(registers := loaded.registers[x := d]);
    assert c.memory == loaded.memory && c.registers[x] == d;
    ExecuteOfSystem(c, LoadGlyph(x), down, rand);
  }

  /** The example ADD V3, V4 with V3 = 0xFF and V4 = 0x01 leaves V3 = 0 and VF = 1. */
  lemma AddCarryExample(c: Cpu, down: Key -> bool, rand: nat)
    requires c.registers[3] == 0xFF && c.registers[4] == 0x01
    ensures Decode(0x8344) == Add(3, 4)
    ensures Step(c, 0x8344, down, rand).registers[3] == 0
    ensures Step(c, 0x8344, down, rand).registers[Flag] == 1
  {
    assert Decode(0x8344) == Add(3, 4);
  }
}
