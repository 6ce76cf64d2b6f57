/** One CPU cycle (`cpuCycle`): the timers count down, the instruction word
    at pc is fetched high byte first, and the word is executed. */
module Emulator {
  import opened Bits
  import opened Machine
  import opened Instructions
  import opened Operations

  /** A timer after one cycle: one less while it runs, zero once it has stopped. */
  function Countdown(t: U32): (r: U32)
    ensures t > 0 ==> r + 1 == t
    ensures t == 0 ==> r == 0
  {
    if t > 0 then t - 1 else 0
  }

  /** The timer decrements at the start of a cycle. */
  function Tick(c: Cpu): (r: Cpu)
    ensures c.delayTimer > 0 ==> r.delayTimer + 1 == c.delayTimer
    ensures c.delayTimer == 0 ==> r.delayTimer == 0
    ensures c.soundTimer > 0 ==> r.soundTimer + 1 == c.soundTimer
    ensures c.soundTimer == 0 ==> r.soundTimer == 0
    ensures r == c.(delayTimer := r.delayTimer, soundTimer := r.soundTimer)
  {
    c.(delayTimer := Countdown(c.delayTimer), soundTimer := Countdown(c.soundTimer))
  }

  /** The machine after n ticks with no instruction writing the timers. */
  function Ticks(c: Cpu, n: nat): Cpu
  {
    if n == 0 then c else Tick(Ticks(c, n - 1))
  }

  /** Timers run down one per tick and stop at zero. */
  lemma {:induction false} TicksCountDown(c: Cpu, n: nat)
    ensures Ticks(c, n).delayTimer == if c.delayTimer >= n then c.delayTimer - n else 0
    ensures Ticks(c, n).soundTimer == if c.soundTimer >= n then c.soundTimer - n else 0
    ensures Ticks(c, n) == c.(delayTimer := Ticks(c, n).delayTimer, soundTimer := Ticks(c, n).soundTimer)
  {
    if n > 0 {
      TicksCountDown(c, n - 1);
    }
  }

  /** The 16-bit instruction word at pc, high byte first. */
  function Fetch(c: Cpu): (w: U16)
    requires c.pc + 1 < MemorySize
    ensures w / 0x100 == c.memory[c.pc] && w % 0x100 == c.memory[c.pc + 1]
  {
    c.memory[c.pc] as int * 0x100 + c.memory[c.pc + 1]
  }

  /** An instruction stored high byte first at pc is the one fetched and decoded. */
  lemma FetchDecode(c: Cpu, ins: Instruction)
    requires c.pc + 1 < MemorySize && !ins.Nop?
    requires c.memory[c.pc] == Encode(ins) / 0x100 && c.memory[c.pc + 1] == Encode(ins) % 0x100
    ensures Decode(Fetch(c)) == ins
  {
    DecodeEncode(ins);
  }

  /** The first instruction of a loaded program is built from its first two bytes. */
  lemma FetchLoaded(rom: seq<Byte>)
    requires |rom| >= 2
    ensures Fetch(Load(rom)) == rom[0] as int * 0x100 + rom[1]
  {
    var c := Load(rom);
    var n := if |rom| < MaxRomSize then |rom| else MaxRomSize;
    assert c.memory[InitAddress] == c.memory[InitAddress .. InitAddress + n][0] == rom[..n][0];
    assert c.memory[InitAddress + 1] == c.memory[InitAddress .. InitAddress + n][1] == rom[..n][1];
  }

  /** `cpuCycle`: tick the timers, fetch the word at pc and execute it. */
  function Cycle(c: Cpu, down: Key -> bool, rand: nat): (r: Cpu)
    requires c.pc + 1 < MemorySize
    requires Defined(Advance(Tick(c)), Decode(Fetch(c)))
    ensures var ins := Decode(Fetch(c));
      && (!(ins.SetDelay? || ins.SetSound?) ==>
            r.delayTimer == Countdown(c.delayTimer) && r.soundTimer == Countdown(c.soundTimer))
      && (Sequential(ins) ==> r.pc == Next(c.pc))
      && (ins.Nop? ==> r == Tick(c).(pc := Next(c.pc)))
  {
    var t := Tick(c);
    Step(t, Fetch(t), down, rand)
  }
}
