/** Instruction execution (`parseInstruction`): the effect of each decoded
    instruction on the machine state, once pc has moved past the word.

    The host's key polling is the parameter `down`, true for a virtual key
    that is held; the C library's random number is the parameter `rand`.
 */
module Operations {
  import opened Bits
  import opened Machine
  import opened Instructions
  import opened Sprite

  datatype Option<T> = None | Some(value: T)

  /** A virtual key 0..F. */
  type Key = k: int | 0 <= k < 0x10

  /** The instruction does not reach undefined behaviour in the interpreter:
      no return with an empty stack, no key index past the key table, and no
      memory access at or beyond address 0x1000. */
  predicate Defined(c: Cpu, ins: Instruction)
    ensures Defined(c, ins) && ins.Ret? ==> c.stack != []
    ensures Defined(c, ins) && (ins.SkipKey? || ins.SkipNoKey?) ==> c.registers[ins.x] < 0x10
    ensures Defined(c, ins) && ins.Draw? && ins.n > 0 ==> c.i + (ins.n - 1) < MemorySize
    ensures Defined(c, ins) && ins.StoreBcd? ==> c.i + 2 < MemorySize
    ensures Defined(c, ins) && (ins.StoreRegs? || ins.LoadRegs?) && ins.x > 0 ==> c.i + (ins.x - 1) < MemorySize
    ensures !(ins.Ret? || ins.SkipKey? || ins.SkipNoKey? || ins.Draw? || ins.StoreBcd? || ins.StoreRegs? || ins.LoadRegs?) ==>
      Defined(c, ins)
  {
    if ins.Ret? then |c.stack| > 0
    else if ins.SkipKey? || ins.SkipNoKey? then c.registers[ins.x] < 0x10
    else if ins.Draw? then ins.n == 0 || c.i + ins.n <= MemorySize
    else if ins.StoreBcd? then c.i + 2 < MemorySize
    else if ins.StoreRegs? || ins.LoadRegs? then ins.x == 0 || c.i + ins.x <= MemorySize
    else true
  }

  /** The registers after VF has been written with a flag. The arithmetic
      instructions write the flag first and then read their operands again,
      so an operand in VF is seen with the flag in it. */
  function Flagged(c: Cpu, flag: Byte): Registers
  {
    c.registers[Flag := flag]
  }

  /** `a - b` kept in an unsigned char: the difference wraps modulo 256. */
  function ByteSub(a: Byte, b: Byte): (d: Byte)
    ensures a >= b ==> d as int == a - b
    ensures a < b ==> d as int == a - b + 0x100
  {
    (a as int - b) % 0x100
  }

  /** `a << 1` kept in an unsigned char: the bit shifted out of the top is lost. */
  function ByteDouble(a: Byte): (d: Byte)
    ensures a < 0x80 ==> d as int == 2 * a
    ensures a >= 0x80 ==> d as int == 2 * a - 0x100
  {
    (a as int * 2) % 0x100
  }

  // 00E0 CLS
  function ClearScreen(c: Cpu): (r: Cpu)
    ensures forall row, col | 0 <= row < ScreenHeight && 0 <= col < ScreenWidth ::
      r.bitScreen[row][col] == ColorBlack && !IsOn(r.bitScreen[row][col])
    ensures r == c.(bitScreen := r.bitScreen)
  {
    c.(bitScreen := seq(ScreenHeight, _ => seq(ScreenWidth, _ => ColorBlack)))
  }

  // 00EE RET
  function Return(c: Cpu): (r: Cpu)
    requires |c.stack| > 0
    ensures r.stack + [r.pc] == c.stack
    ensures r == c.(pc := r.pc, stack := r.stack)
  {
    c.(pc := c.stack[|c.stack| - 1], stack := c.stack[..|c.stack| - 1])
  }

  // 2nnn CALL addr
  function CallSubroutine(c: Cpu, addr: Addr): (r: Cpu)
    ensures |r.stack| == |c.stack| + 1 && r.stack[..|c.stack|] == c.stack
    ensures r.stack[|c.stack|] == c.pc && r.pc == addr
    ensures r == c.(pc := r.pc, stack := r.stack)
  {
    c.(stack := c.stack + [c.pc], pc := addr)
  }

  /** Skip the next instruction when the condition holds. */
  function SkipIf(c: Cpu, cond: bool): (r: Cpu)
    ensures cond ==> (r.pc - c.pc) % 0x1_0000 == 2
    ensures !cond ==> r.pc == c.pc
    ensures r == c.(pc := r.pc)
  {
    if cond then c.(pc := Next(c.pc)) else c
  }

  // 7xkk ADD Vx, byte
  function AddImmediate(c: Cpu, x: Reg, kk: Byte): (r: Cpu)
    ensures x != Flag ==> r.registers[x] as int + 0x100 * r.registers[Flag] as int == c.registers[x] as int + kk
    ensures x == Flag ==> r.registers[Flag] == ((if c.registers[Flag] as int + kk > 0xFF then 1 else 0) + kk) % 0x100
    ensures forall k | 0 <= k < RegisterCount && k != x && k != Flag :: r.registers[k] == c.registers[k]
    ensures r == c.(registers := r.registers)
  {
    var v := Flagged(c, if c.registers[x] as int + kk > 0xFF then 1 else 0);
    c.(registers := v[x := (v[x] as int + kk) % 0x100])
  }

  // 8xy4 ADD Vx, Vy
  function AddRegisters(c: Cpu, x: Reg, y: Reg): (r: Cpu)
    ensures x != Flag && y != Flag ==>
      r.registers[x] as int + 0x100 * r.registers[Flag] as int == c.registers[x] as int + c.registers[y]
    ensures x != Flag ==> (r.registers[Flag] == 1 <==> c.registers[x] as int + c.registers[y] > 0xFF) && r.registers[Flag] <= 1
    ensures x != Flag && y == Flag ==> r.registers[x] == (c.registers[x] as int + r.registers[Flag]) % 0x100
    ensures x == Flag ==> var carry := if c.registers[Flag] as int + c.registers[y] > 0xFF then 1 else 0;
      r.registers[Flag] == (carry + (if y == Flag then carry else c.registers[y] as int)) % 0x100
    ensures forall k | 0 <= k < RegisterCount && k != x && k != Flag :: r.registers[k] == c.registers[k]
    ensures r == c.(registers := r.registers)
  {
    var v := Flagged(c, if c.registers[x] as int + c.registers[y] > 0xFF then 1 else 0);
    c.(registers := v[x := (v[x] as int + v[y]) % 0x100])
  }

  // 8xy5 SUB Vx, Vy: VF is 1 only when Vx is strictly greater than Vy
  function SubtractRegisters(c: Cpu, x: Reg, y: Reg): (r: Cpu)
    ensures x != Flag && y != Flag ==> (r.registers[x] as int + c.registers[y]) % 0x100 == c.registers[x]
    ensures x != Flag ==> (r.registers[Flag] == 1 <==> c.registers[x] > c.registers[y])
    ensures x != Flag ==> (r.registers[Flag] == 0 <==> c.registers[x] <= c.registers[y])
    ensures x != Flag && y == Flag ==> (r.registers[x] as int + r.registers[Flag]) % 0x100 == c.registers[x]
    ensures x == Flag && y != Flag ==>
      (r.registers[Flag] as int + c.registers[y]) % 0x100 == (if c.registers[Flag] > c.registers[y] then 1 else 0)
    ensures x == Flag && y == Flag ==> r.registers[Flag] == 0
    ensures forall k | 0 <= k < RegisterCount && k != x && k != Flag :: r.registers[k] == c.registers[k]
    ensures r == c.(registers := r.registers)
  {
    var v := Flagged(c, if c.registers[x] > c.registers[y] then 1 else 0);
    c.(registers := v[x := ByteSub(v[x], v[y])])
  }

  // 8xy7 SUBN Vx, Vy: VF is 1 only when Vy is strictly greater than Vx
  function SubtractReversed(c: Cpu, x: Reg, y: Reg): (r: Cpu)
    ensures x != Flag && y != Flag ==> (r.registers[x] as int + c.registers[x]) % 0x100 == c.registers[y]
    ensures x != Flag ==> (r.registers[Flag] == 1 <==> c.registers[y] > c.registers[x])
    ensures x != Flag ==> (r.registers[Flag] == 0 <==> c.registers[y] <= c.registers[x])
    ensures x != Flag && y == Flag ==> (r.registers[x] as int + c.registers[x]) % 0x100 == r.registers[Flag]
    ensures x == Flag && y != Flag ==>
      (r.registers[Flag] as int + (if c.registers[y] > c.registers[Flag] then 1 else 0)) % 0x100 == c.registers[y]
    ensures x == Flag && y == Flag ==> r.registers[Flag] == 0
    ensures forall k | 0 <= k < RegisterCount && k != x && k != Flag :: r.registers[k] == c.registers[k]
    ensures r == c.(registers := r.registers)
  {
    var v := Flagged(c, if c.registers[y] > c.registers[x] then 1 else 0);
    c.(registers := v[x := ByteSub(v[y], v[x])])
  }

  // 8xy6 SHR Vx {, Vy}: VF gets `Vy & 1`, Vx gets `Vy >> 1`
  function ShiftRight(c: Cpu, x: Reg, y: Reg): (r: Cpu)
    ensures x != Flag && y != Flag ==> 2 * r.registers[x] as int + r.registers[Flag] == c.registers[y]
    ensures x != Flag ==> r.registers[Flag] <= 1
    ensures x != Flag && y == Flag ==> r.registers[x] == 0 && r.registers[Flag] == c.registers[Flag] % 2
    ensures x == Flag && y != Flag ==> 2 * r.registers[Flag] as int + c.registers[y] % 2 == c.registers[y]
    ensures x == Flag && y == Flag ==> r.registers[Flag] == 0
    ensures forall k | 0 <= k < RegisterCount && k != x && k != Flag :: r.registers[k] == c.registers[k]
    ensures r == c.(registers := r.registers)
  {
    var v := Flagged(c, c.registers[y] % 2);
    c.(registers := v[x := v[y] / 2])
  }

  // 8xyE SHL Vx {, Vy}: VF gets `Vy & 0x80`, Vx gets `(Vy << 1) & 0xFF`
  function ShiftLeft(c: Cpu, x: Reg, y: Reg): (r: Cpu)
    ensures x != Flag && y != Flag ==> r.registers[x] as int + 2 * r.registers[Flag] as int == 2 * c.registers[y] as int
    ensures x != Flag ==> (r.registers[Flag] == 0x80 <==> c.registers[y] >= 0x80)
    ensures x != Flag ==> (r.registers[Flag] == 0 <==> c.registers[y] < 0x80)
    ensures x != Flag && y == Flag ==> r.registers[x] == 0
    ensures x == Flag && y != Flag ==>
      r.registers[Flag] as int + 0x100 * (c.registers[y] as int / 0x80) == 2 * c.registers[y] as int
    ensures x == Flag && y == Flag ==> r.registers[Flag] == 0
    ensures forall k | 0 <= k < RegisterCount && k != x && k != Flag :: r.registers[k] == c.registers[k]
    ensures r == c.(registers := r.registers)
  {
    var v := Flagged(c, (c.registers[y] / 0x80) * 0x80);
    c.(registers := v[x := ByteDouble(v[y])])
  }

  // Cxkk RND Vx, byte: `kk & (rand % 255)`
  function RandomMasked(kk: Byte, rand: nat): (r: Byte)
    ensures forall k | 0 <= k < 8 :: Bit(r, k) ==> Bit(kk, k)
    ensures r <= kk
    ensures r < 0xFF
  {
    BitAnd(kk, rand % 255)
  }

  // Fx07 LD Vx, DT: the delay timer counted in units of TimerScale ticks
  function ReadDelay(c: Cpu, x: Reg): (r: Cpu)
    ensures c.delayTimer < 0x100 * TimerScale ==>
      TimerScale * r.registers[x] <= c.delayTimer < TimerScale * (r.registers[x] as int + 1)
    ensures forall k | 0 <= k < RegisterCount && k != x :: r.registers[k] == c.registers[k]
    ensures r == c.(registers := r.registers)
  {
    c.(registers := c.registers[x := (c.delayTimer / TimerScale) % 0x100])
  }

  /** The first key from k on that is not held, searching upwards. */
  function FirstReleased(down: Key -> bool, k: int): (r: Option<Key>)
    requires 0 <= k <= 0x10
    decreases 0x10 - k
    ensures r.Some? ==> k <= r.value && !down(r.value) && forall j: Key | k <= j < r.value :: down(j)
    ensures r.None? <==> forall j: Key | k <= j :: down(j)
  {
    if k == 0x10 then None
    else if !down(k) then Some(k)
    else FirstReleased(down, k + 1)
  }

  // Fx0A LD Vx, K: the first key that is not held is taken; with every key
  // held, pc steps back so that the instruction runs again.
  function WaitForKey(c: Cpu, x: Reg, down: Key -> bool): (r: Cpu)
    ensures (exists k: Key :: !down(k)) ==>
      && r == c.(registers := r.registers)
      && r.registers[x] < 0x10
      && !down(r.registers[x])
      && (forall j: Key | j < r.registers[x] :: down(j))
      && (forall k | 0 <= k < RegisterCount && k != x :: r.registers[k] == c.registers[k])
    ensures (forall k: Key :: down(k)) ==> r == c.(pc := (c.pc + 0x1_0000 - 2) % 0x1_0000)
  {
    match FirstReleased(down, 0)
    case Some(k) => c.(registers := c.registers[x := k])
    case None => c.(pc := (c.pc + 0x1_0000 - 2) % 0x1_0000)
  }

  // Fx1E ADD I, Vx: the sum is an `unsigned short`, I keeps its low 12 bits
  // and VF records whether it went past 0xFFF.
  function AddToIndex(c: Cpu, x: Reg): (r: Cpu)
    ensures r.i < 0x1000
    ensures r.registers[Flag] <= 1
    ensures c.i < 0x1000 ==> r.i + 0x1000 * r.registers[Flag] as int == c.i + c.registers[x]
    ensures forall k | 0 <= k < RegisterCount && k != Flag :: r.registers[k] == c.registers[k]
    ensures r == c.(i := r.i, registers := r.registers)
  {
    var sum := (c.i + c.registers[x]) % 0x1_0000;
    c.(i := sum % 0x1000, registers := c.registers[Flag := if sum > 0xFFF then 1 else 0])
  }

  // Fx29 LD F, Vx
  function PointToGlyph(c: Cpu, x: Reg): (r: Cpu)
    ensures r.i == SpritesAddress + GlyphHeight * c.registers[x]
    ensures c.registers[x] < 0x10 && FontResident(c.memory) ==>
      r.i + GlyphHeight <= MemorySize && c.memory[r.i .. r.i + GlyphHeight] == Glyph(c.registers[x])
    ensures r == c.(i := r.i)
  {
    GlyphInFont(c.memory, c.registers[x]);
    c.(i := SpritesAddress + c.registers[x] * GlyphHeight)
  }

  /** With the font resident, the glyph of a digit d below 16 sits
      GlyphHeight * d bytes past SpritesAddress. */
  lemma GlyphInFont(m: Memory, d: int)
    ensures 0 <= d < 0x10 && FontResident(m) ==>
      m[SpritesAddress + GlyphHeight * d .. SpritesAddress + GlyphHeight * d + GlyphHeight] == Glyph(d)
  {
    if 0 <= d < 0x10 && FontResident(m) {
      var a := SpritesAddress + GlyphHeight * d;
      forall k | 0 <= k < GlyphHeight
        ensures m[a .. a + GlyphHeight][k] == Glyph(d)[k]
      {
        assert m[SpritesAddress .. SpritesAddress + |SpritesTable|][GlyphHeight * d + k] == SpritesTable[GlyphHeight * d + k];
      }
    }
  }

  // Fx33 LD B, Vx: hundreds, tens and units of Vx at I, I+1 and I+2
  function WriteBcd(c: Cpu, x: Reg): (r: Cpu)
    requires c.i + 2 < MemorySize
    ensures r.memory[c.i] <= 2 && r.memory[c.i + 1] <= 9 && r.memory[c.i + 2] <= 9
    ensures 100 * r.memory[c.i] as int + 10 * r.memory[c.i + 1] as int + r.memory[c.i + 2] == c.registers[x]
    ensures forall a | 0 <= a < MemorySize && !(c.i <= a < c.i + 3) :: r.memory[a] == c.memory[a]
    ensures r == c.(memory := r.memory)
  {
    var v := c.registers[x];
    c.(memory := c.memory[c.i := v / 100][c.i + 1 := (v % 100) / 10][c.i + 2 := v % 10])
  }

  // Fx55 LD [I], Vx: V0 .. V(x-1) to memory at I, then I moves on by x + 1
  function StoreRegisters(c: Cpu, x: Reg): (r: Cpu)
    requires x == 0 || c.i + x <= MemorySize
    ensures forall k | 0 <= k < x :: r.memory[c.i + k] == c.registers[k]
    ensures forall a | 0 <= a < MemorySize && !(c.i <= a < c.i + x) :: r.memory[a] == c.memory[a]
    ensures r.i == (c.i + x + 1) % 0x1_0000
    ensures x > 0 ==> r.i == c.i + x + 1
    ensures r == c.(memory := r.memory, i := r.i)
  {
    var memory: Memory := seq(MemorySize, a requires 0 <= a < MemorySize => StoredCell(c, x, a));
    c.(memory := memory, i := (c.i + x + 1) % 0x1_0000)
  }

  /** Memory cell a after Fx55: Va-I inside the stored block, the old cell outside it. */
  function StoredCell(c: Cpu, x: Reg, a: int): (b: Byte)
    requires 0 <= a < MemorySize
    ensures c.i <= a < c.i + x ==> b == c.registers[a - c.i]
    ensures !(c.i <= a < c.i + x) ==> b == c.memory[a]
  {
    if c.i <= a < c.i + x then c.registers[a - c.i] else c.memory[a]
  }

  // Fx65 LD Vx, [I]: memory at I to V0 .. V(x-1), then I moves on by x + 1
  function LoadRegisters(c: Cpu, x: Reg): (r: Cpu)
    requires x == 0 || c.i + x <= MemorySize
    ensures forall k | 0 <= k < x :: r.registers[k] == c.memory[c.i + k]
    ensures forall k | x <= k < RegisterCount :: r.registers[k] == c.registers[k]
    ensures r.i == (c.i + x + 1) % 0x1_0000
    ensures x > 0 ==> r.i == c.i + x + 1
    ensures r == c.(registers := r.registers, i := r.i)
  {
    var registers: Registers := seq(RegisterCount, k requires 0 <= k < RegisterCount => LoadedRegister(c, x, k));
    c.(registers := registers, i := (c.i + x + 1) % 0x1_0000)
  }

  /** Register Vk after Fx65: the cell at I + k for k below x, the old value otherwise. */
  function LoadedRegister(c: Cpu, x: Reg, k: Reg): (b: Byte)
    requires x == 0 || c.i + x <= MemorySize
    ensures k < x ==> b == c.memory[c.i + k]
    ensures x <= k ==> b == c.registers[k]
  {
    if k < x then c.memory[c.i + k] else c.registers[k]
  }

  /** The register instructions that compute no flag (6xkk, 8xy0..8xy3, Cxkk). */
  predicate IsLogicOp(ins: Instruction)
  {
    ins.LoadByte? || ins.Move? || ins.Or? || ins.And? || ins.Xor? || ins.Random?
  }

  /** The register instructions that write a flag or a carry (7xkk, 8xy4..8xyE). */
  predicate IsArithmeticOp(ins: Instruction)
  {
    ins.AddByte? || ins.Add? || ins.Sub? || ins.Shr? || ins.SubN? || ins.Shl?
  }

  /** The instructions that only write registers (6xkk, 7xkk, 8xyN, Cxkk). */
  predicate IsRegisterOp(ins: Instruction)
  {
    IsLogicOp(ins) || IsArithmeticOp(ins)
  }

  /** The instructions that move pc unconditionally: 00EE, 1nnn, 2nnn, Bnnn. */
  predicate IsJump(ins: Instruction)
  {
    ins.Ret? || ins.Jump? || ins.Call? || ins.JumpV0?
  }

  /** The instructions that only move pc and the stack. */
  predicate IsFlow(ins: Instruction)
  {
    IsJump(ins) || IsSkip(ins)
  }

  predicate IsSkip(ins: Instruction)
  {
    ins.SkipEqByte? || ins.SkipNeByte? || ins.SkipEqReg? || ins.SkipNeReg? || ins.SkipKey? || ins.SkipNoKey?
  }

  /** Vx gets the value b; nothing else changes. */
  function SetRegister(c: Cpu, x: Reg, b: Byte): (r: Cpu)
    ensures r.registers[x] == b
    ensures forall k | 0 <= k < RegisterCount && k != x :: r.registers[k] == c.registers[k]
    ensures r == c.(registers := r.registers)
  {
    c.(registers := c.registers[x := b])
  }

  /** 6xkk, 8xy0, 8xy1, 8xy2, 8xy3 and Cxkk: Vx gets the value, the rest of the machine is unchanged. */
  function ExecuteLogic(c: Cpu, ins: Instruction, rand: nat): (r: Cpu)
    requires IsLogicOp(ins)
    ensures r == c.(registers := r.registers)
    ensures forall k | 0 <= k < RegisterCount && k != ins.x :: r.registers[k] == c.registers[k]
    ensures ins.LoadByte? ==> r.registers[ins.x] == ins.kk
    ensures ins.Move? ==> r.registers[ins.x] == c.registers[ins.y]
    ensures ins.Or? ==> r.registers[ins.x] == BitOr(c.registers[ins.x], c.registers[ins.y])
    ensures ins.And? ==> r.registers[ins.x] == BitAnd(c.registers[ins.x], c.registers[ins.y])
    ensures ins.Xor? ==> r.registers[ins.x] == BitXor(c.registers[ins.x], c.registers[ins.y])
    ensures ins.Random? ==> r.registers[ins.x] == RandomMasked(ins.kk, rand)
  {
    var v := c.registers;
    match ins
    case LoadByte(x, kk) => SetRegister(c, x, kk)
    case Move(x, y) => SetRegister(c, x, v[y])
    case Or(x, y) => SetRegister(c, x, BitOr(v[x], v[y]))
    case And(x, y) => SetRegister(c, x, BitAnd(v[x], v[y]))
    case Xor(x, y) => SetRegister(c, x, BitXor(v[x], v[y]))
    case Random(x, kk) => SetRegister(c, x, RandomMasked(kk, rand))
  }

  /** 7xkk and 8xy4..8xyE: the arithmetic with its flag, as the functions above state it. */
  function ExecuteArithmetic(c: Cpu, ins: Instruction): (r: Cpu)
    requires IsArithmeticOp(ins)
    ensures r == c.(registers := r.registers)
    ensures ins.AddByte? ==> r == AddImmediate(c, ins.x, ins.kk)
    ensures ins.Add? ==> r == AddRegisters(c, ins.x, ins.y)
    ensures ins.Sub? ==> r == SubtractRegisters(c, ins.x, ins.y)
    ensures ins.SubN? ==> r == SubtractReversed(c, ins.x, ins.y)
    ensures ins.Shr? ==> r == ShiftRight(c, ins.x, ins.y)
    ensures ins.Shl? ==> r == ShiftLeft(c, ins.x, ins.y)
  {
    match ins
    case AddByte(x, kk) => AddImmediate(c, x, kk)
    case Add(x, y) => AddRegisters(c, x, y)
    case Sub(x, y) => SubtractRegisters(c, x, y)
    case Shr(x, y) => ShiftRight(c, x, y)
    case SubN(x, y) => SubtractReversed(c, x, y)
    case Shl(x, y) => ShiftLeft(c, x, y)
  }

  /** 00EE, 1nnn, 2nnn and Bnnn: the new pc, and the stack for a call or return. */
  function ExecuteJump(c: Cpu, ins: Instruction): (r: Cpu)
    requires IsJump(ins) && Defined(c, ins)
    ensures r == c.(pc := r.pc, stack := r.stack)
    ensures !(ins.Call? || ins.Ret?) ==> r.stack == c.stack
    ensures ins.Ret? ==> r.stack + [r.pc] == c.stack
    ensures ins.Call? ==> r.stack == c.stack + [c.pc] && r.pc == ins.addr
    ensures ins.Jump? ==> r.pc == ins.addr
    ensures ins.JumpV0? ==> r.pc == c.registers[0] as int + ins.addr
  {
    match ins
    case Ret => Return(c)
    case Jump(a) => c.(pc := a)
    case Call(a) => CallSubroutine(c, a)
    case JumpV0(a) => c.(pc := c.registers[0] as int + a)
  }

  /** The six skips: which condition moves pc past the next word. */
  function ExecuteSkip(c: Cpu, ins: Instruction, down: Key -> bool): (r: Cpu)
    requires IsSkip(ins) && Defined(c, ins)
    ensures r == c.(pc := r.pc)
    ensures r.pc == c.pc || r.pc == Next(c.pc)
    ensures ins.SkipEqByte? ==> (r.pc == Next(c.pc) <==> c.registers[ins.x] == ins.kk)
    ensures ins.SkipNeByte? ==> (r.pc == Next(c.pc) <==> c.registers[ins.x] != ins.kk)
    ensures ins.SkipEqReg? ==> (r.pc == Next(c.pc) <==> c.registers[ins.x] == c.registers[ins.y])
    ensures ins.SkipNeReg? ==> (r.pc == Next(c.pc) <==> c.registers[ins.x] != c.registers[ins.y])
    ensures ins.SkipKey? ==> (r.pc == Next(c.pc) <==> !down(c.registers[ins.x]))
    ensures ins.SkipNoKey? ==> (r.pc == Next(c.pc) <==> down(c.registers[ins.x]))
  {
    var v := c.registers;
    match ins
    case SkipEqByte(x, kk) => SkipIf(c, v[x] == kk)
    case SkipNeByte(x, kk) => SkipIf(c, v[x] != kk)
    case SkipEqReg(x, y) => SkipIf(c, v[x] == v[y])
    case SkipNeReg(x, y) => SkipIf(c, v[x] != v[y])
    case SkipKey(x) => SkipIf(c, !down(v[x]))
    case SkipNoKey(x) => SkipIf(c, down(v[x]))
  }

  /** The Annn and Fx.. instructions: index register, timers, keys and memory. */
  function ExecuteSystem(c: Cpu, ins: Instruction, down: Key -> bool): (r: Cpu)
    requires !(IsFlow(ins) || IsRegisterOp(ins) || ins.Cls? || ins.Draw? || ins.Nop?) && Defined(c, ins)
    ensures r.stack == c.stack && r.bitScreen == c.bitScreen
    ensures !(ins.StoreBcd? || ins.StoreRegs?) ==> r.memory == c.memory
    ensures !(ins.SetDelay? || ins.SetSound?) ==> r.delayTimer == c.delayTimer && r.soundTimer == c.soundTimer
    ensures !ins.WaitKey? ==> r.pc == c.pc
    ensures ins.LoadIndex? ==> r == c.(i := ins.addr)
    ensures ins.SetDelay? ==> r == c.(delayTimer := c.registers[ins.x] as int * TimerScale)
    ensures ins.SetSound? ==> r == c.(soundTimer := c.registers[ins.x] as int * TimerScale)
    ensures ins.ReadDelay? ==> r == ReadDelay(c, ins.x)
    ensures ins.WaitKey? ==> r == WaitForKey(c, ins.x, down)
    ensures ins.AddIndex? ==> r == AddToIndex(c, ins.x)
    ensures ins.LoadGlyph? ==> r == PointToGlyph(c, ins.x)
    ensures ins.StoreBcd? ==> r == WriteBcd(c, ins.x)
    ensures ins.StoreRegs? ==> r == StoreRegisters(c, ins.x)
    ensures ins.LoadRegs? ==> r == LoadRegisters(c, ins.x)
  {
    var v := c.registers;
    match ins
    case LoadIndex(a) => c.(i := a)
    case ReadDelay(x) => ReadDelay(c, x)
    case WaitKey(x) => WaitForKey(c, x, down)
    case SetDelay(x) => c.(delayTimer := v[x] as int * TimerScale)
    case SetSound(x) => c.(soundTimer := v[x] as int * TimerScale)
    case AddIndex(x) => AddToIndex(c, x)
    case LoadGlyph(x) => PointToGlyph(c, x)
    case StoreBcd(x) => WriteBcd(c, x)
    case StoreRegs(x) => StoreRegisters(c, x)
    case LoadRegs(x) => LoadRegisters(c, x)
  }

  /** The effect of one decoded instruction on a machine whose pc already
      points past it. */
  function Execute(c: Cpu, ins: Instruction, down: Key -> bool, rand: nat): (r: Cpu)
    requires Defined(c, ins)
    ensures !(ins.Cls? || ins.Draw?) ==> r.bitScreen == c.bitScreen
    ensures !(ins.StoreBcd? || ins.StoreRegs?) ==> r.memory == c.memory
    ensures !(ins.Call? || ins.Ret?) ==> r.stack == c.stack
    ensures !(ins.SetDelay? || ins.SetSound?) ==> r.delayTimer == c.delayTimer && r.soundTimer == c.soundTimer
    ensures !(IsFlow(ins) || ins.WaitKey?) ==> r.pc == c.pc
    ensures IsSkip(ins) ==> r.pc == c.pc || r.pc == Next(c.pc)
  {
    if ins.Cls? then ClearScreen(c)
    else if ins.Draw? then DrawSprite(c, c.registers[ins.x], c.registers[ins.y], ins.n)
    else if ins.Nop? then c
    else if IsLogicOp(ins) then ExecuteLogic(c, ins, rand)
    else if IsArithmeticOp(ins) then ExecuteArithmetic(c, ins)
    else if IsJump(ins) then ExecuteJump(c, ins)
    else if IsSkip(ins) then ExecuteSkip(c, ins, down)
    else ExecuteSystem(c, ins, down)
  }

  /** The machine once pc has moved past the instruction word. */
  function Advance(c: Cpu): (r: Cpu)
    ensures (r.pc - c.pc) % 0x1_0000 == 2
    ensures r == c.(pc := r.pc)
  {
    c.(pc := Next(c.pc))
  }

  /** `parseInstruction`: pc moves past the word, then the decoded instruction runs. */
  function Step(c: Cpu, code: U16, down: Key -> bool, rand: nat): (r: Cpu)
    requires Defined(Advance(c), Decode(code))
    ensures Decode(code).Nop? ==> r == c.(pc := Next(c.pc))
    ensures Sequential(Decode(code)) ==> r.pc == Next(c.pc)
    ensures IsSkip(Decode(code)) ==> r.pc == Next(c.pc) || r.pc == Next(Next(c.pc))
  {
    Execute(Advance(c), Decode(code), down, rand)
  }

  /** Instructions that leave pc just past themselves. */
  predicate Sequential(ins: Instruction)
  {
    !(ins.Ret? || ins.Jump? || ins.Call? || ins.JumpV0? || ins.WaitKey? || IsSkip(ins))
  }

}
