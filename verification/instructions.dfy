/** The 16-bit instruction word: its bit fields, the masked pattern tests the
    interpreter decodes it with, and the canonical encoding of each instruction.
 */
module Instructions {
  import opened Bits
  import opened Machine

  /** A 12-bit address, the nnn field. */
  type Addr = a: int | 0 <= a < 0x1000
  type Nibble = n: int | 0 <= n < 0x10

  /** The classic instruction set. Comments give the word pattern. */
  datatype Instruction =
    | Cls                            // 00E0
    | Ret                            // 00EE
    | Jump(addr: Addr)               // 1nnn
    | Call(addr: Addr)               // 2nnn
    | SkipEqByte(x: Reg, kk: Byte)   // 3xkk
    | SkipNeByte(x: Reg, kk: Byte)   // 4xkk
    | SkipEqReg(x: Reg, y: Reg)      // 5xy0
    | LoadByte(x: Reg, kk: Byte)     // 6xkk
    | AddByte(x: Reg, kk: Byte)      // 7xkk
    | Move(x: Reg, y: Reg)           // 8xy0
    | Or(x: Reg, y: Reg)             // 8xy1
    | And(x: Reg, y: Reg)            // 8xy2
    | Xor(x: Reg, y: Reg)            // 8xy3
    | Add(x: Reg, y: Reg)            // 8xy4
    | Sub(x: Reg, y: Reg)            // 8xy5
    | Shr(x: Reg, y: Reg)            // 8xy6
    | SubN(x: Reg, y: Reg)           // 8xy7
    | Shl(x: Reg, y: Reg)            // 8xyE
    | SkipNeReg(x: Reg, y: Reg)      // 9xy0
    | LoadIndex(addr: Addr)          // Annn
    | JumpV0(addr: Addr)             // Bnnn
    | Random(x: Reg, kk: Byte)       // Cxkk
    | Draw(x: Reg, y: Reg, n: Nibble)  // Dxyn
    | SkipKey(x: Reg)                // Ex9E
    | SkipNoKey(x: Reg)              // ExA1
    | ReadDelay(x: Reg)              // Fx07
    | WaitKey(x: Reg)                // Fx0A
    | SetDelay(x: Reg)               // Fx15
    | SetSound(x: Reg)               // Fx18
    | AddIndex(x: Reg)               // Fx1E
    | LoadGlyph(x: Reg)              // Fx29
    | StoreBcd(x: Reg)               // Fx33
    | StoreRegs(x: Reg)              // Fx55
    | LoadRegs(x: Reg)               // Fx65
    | Nop                            // every other word

  // Bit fields of a word
  function FieldX(code: U16): Reg { (code / 0x100) % 0x10 }
  function FieldY(code: U16): Reg { (code / 0x10) % 0x10 }
  function FieldN(code: U16): Nibble { code % 0x10 }
  function FieldKK(code: U16): Byte { code % 0x100 }
  function FieldNNN(code: U16): Addr { code % 0x1000 }

  // The three masks of the decoder, `code & 0xF000`, `code & 0xF00F` and
  // `code & 0xF0FF`, written with the word's hexadecimal digits.
  function MaskOp(code: U16): int { code - code % 0x1000 }
  function MaskOpN(code: U16): int { MaskOp(code) + code % 0x10 }
  function MaskOpKK(code: U16): int { MaskOp(code) + code % 0x100 }

  /** The decoder: the first pattern that matches names the instruction. */
  function Decode(code: U16): Instruction
  {
    var x, y, kk, nnn := FieldX(code), FieldY(code), FieldKK(code), FieldNNN(code);
    if code == 0x00E0 then Cls
    else if code == 0x00EE then Ret
    else if MaskOp(code) == 0x1000 then Jump(nnn)
    else if MaskOp(code) == 0x2000 then Call(nnn)
    else if MaskOp(code) == 0x3000 then SkipEqByte(x, kk)
    else if MaskOp(code) == 0x4000 then SkipNeByte(x, kk)
    else if MaskOpN(code) == 0x5000 then SkipEqReg(x, y)
    else if MaskOp(code) == 0x6000 then LoadByte(x, kk)
    else if MaskOp(code) == 0x7000 then AddByte(x, kk)
    else if MaskOpN(code) == 0x8000 then Move(x, y)
    else if MaskOpN(code) == 0x8001 then Or(x, y)
    else if MaskOpN(code) == 0x8002 then And(x, y)
    else if MaskOpN(code) == 0x8003 then Xor(x, y)
    else if MaskOpN(code) == 0x8004 then Add(x, y)
    else if MaskOpN(code) == 0x8005 then Sub(x, y)
    else if MaskOpN(code) == 0x8006 then Shr(x, y)
    else if MaskOpN(code) == 0x8007 then SubN(x, y)
    else if MaskOpN(code) == 0x800E then Shl(x, y)
    else if MaskOpN(code) == 0x9000 then SkipNeReg(x, y)
    else if MaskOp(code) == 0xA000 then LoadIndex(nnn)
    else if MaskOp(code) == 0xB000 then JumpV0(nnn)
    else if MaskOp(code) == 0xC000 then Random(x, kk)
    else if MaskOp(code) == 0xD000 then Draw(x, y, FieldN(code))
    else if MaskOpKK(code) == 0xE09E then SkipKey(x)
    else if MaskOpKK(code) == 0xE0A1 then SkipNoKey(x)
    else if MaskOpKK(code) == 0xF007 then ReadDelay(x)
    else if MaskOpKK(code) == 0xF00A then WaitKey(x)
    else if MaskOpKK(code) == 0xF015 then SetDelay(x)
    else if MaskOpKK(code) == 0xF018 then SetSound(x)
    else if MaskOpKK(code) == 0xF01E then AddIndex(x)
    else if MaskOpKK(code) == 0xF029 then LoadGlyph(x)
    else if MaskOpKK(code) == 0xF033 then StoreBcd(x)
    else if MaskOpKK(code) == 0xF055 then StoreRegs(x)
    else if MaskOpKK(code) == 0xF065 then LoadRegs(x)
    else Nop
  }

  function XY(x: Reg, y: Reg): int { 0x100 * x + 0x10 * y }

  /** The word each instruction is written as; Nop is written as 0000. */
  function Encode(ins: Instruction): U16
  {
    match ins
    case Cls => 0x00E0
    case Ret => 0x00EE
    case Jump(a) => 0x1000 + a
    case Call(a) => 0x2000 + a
    case SkipEqByte(x, kk) => 0x3000 + 0x100 * x + kk
    case SkipNeByte(x, kk) => 0x4000 + 0x100 * x + kk
    case SkipEqReg(x, y) => 0x5000 + XY(x, y)
    case LoadByte(x, kk) => 0x6000 + 0x100 * x + kk
    case AddByte(x, kk) => 0x7000 + 0x100 * x + kk
    case Move(x, y) => 0x8000 + XY(x, y)
    case Or(x, y) => 0x8001 + XY(x, y)
    case And(x, y) => 0x8002 + XY(x, y)
    case Xor(x, y) => 0x8003 + XY(x, y)
    case Add(x, y) => 0x8004 + XY(x, y)
    case Sub(x, y) => 0x8005 + XY(x, y)
    case Shr(x, y) => 0x8006 + XY(x, y)
    case SubN(x, y) => 0x8007 + XY(x, y)
    case Shl(x, y) => 0x800E + XY(x, y)
    case SkipNeReg(x, y) => 0x9000 + XY(x, y)
    case LoadIndex(a) => 0xA000 + a
    case JumpV0(a) => 0xB000 + a
    case Random(x, kk) => 0xC000 + 0x100 * x + kk
    case Draw(x, y, n) => 0xD000 + XY(x, y) + n
    case SkipKey(x) => 0xE09E + 0x100 * x
    case SkipNoKey(x) => 0xE0A1 + 0x100 * x
    case ReadDelay(x) => 0xF007 + 0x100 * x
    case WaitKey(x) => 0xF00A + 0x100 * x
    case SetDelay(x) => 0xF015 + 0x100 * x
    case SetSound(x) => 0xF018 + 0x100 * x
    case AddIndex(x) => 0xF01E + 0x100 * x
    case LoadGlyph(x) => 0xF029 + 0x100 * x
    case StoreBcd(x) => 0xF033 + 0x100 * x
    case StoreRegs(x) => 0xF055 + 0x100 * x
    case LoadRegs(x) => 0xF065 + 0x100 * x
    case Nop => 0x0000
  }

  /** A word is its four hexadecimal digits. */
  lemma Digits(code: U16)
    ensures code == MaskOp(code) + 0x100 * FieldX(code) + 0x10 * FieldY(code) + FieldN(code)
    ensures code % 0x1000 == 0x100 * FieldX(code) + FieldKK(code)
    ensures FieldKK(code) == 0x10 * FieldY(code) + FieldN(code)
    ensures MaskOp(code) % 0x1000 == 0 && 0 <= MaskOp(code) <= 0xF000
  {
    var op, rest := code / 0x1000, code % 0x1000;
    var x, low := rest / 0x100, rest % 0x100;
    var y, n := low / 0x10, low % 0x10;
    assert code == 0x1000 * op + 0x100 * x + 0x10 * y + n;
    DivMod(0x10 * op + x, low, 0x100);
    DivMod(op, x, 0x10);
    DivMod(0x100 * op + 0x10 * x + y, n, 0x10);
    DivMod(0x10 * op + x, y, 0x10);
    DivMod(op, 0x100 * x + low, 0x1000);
  }

  /** Splitting a number at one of its hexadecimal digit boundaries. */
  lemma DivMod(q: int, r: int, d: int)
    requires d == 0x10 || d == 0x100 || d == 0x1000
    requires 0 <= r < d
    ensures (q * d + r) / d == q && (q * d + r) % d == r
  {
    if d == 0x10 {
    } else if d == 0x100 {
    } else {
    }
  }

  /** The fields of a word assembled from four hexadecimal digits. */
  lemma Assemble(op: Nibble, x: Nibble, y: Nibble, n: Nibble)
    ensures var code := 0x1000 * op + 0x100 * x + 0x10 * y + n;
      && 0 <= code < 0x1_0000
      && MaskOp(code) == 0x1000 * op
      && FieldX(code) == x && FieldY(code) == y && FieldN(code) == n
      && FieldKK(code) == 0x10 * y + n && FieldNNN(code) == 0x100 * x + 0x10 * y + n
  {
    var code := 0x1000 * op + 0x100 * x + 0x10 * y + n;
    DivMod(op, 0x100 * x + 0x10 * y + n, 0x1000);
    DivMod(0x10 * op + x, 0x10 * y + n, 0x100);
    DivMod(op, x, 0x10);
    DivMod(0x100 * op + 0x10 * x + y, n, 0x10);
    DivMod(0x10 * op + x, y, 0x10);
    DivMod(0x100 * op + 0x10 * x, 0x10 * y + n, 0x100);
  }

  /** The fields of a word made of an operation digit and an address. */
  lemma AssembleAddr(op: Nibble, a: Addr)
    ensures var code := 0x1000 * op + a;
      && 0 <= code < 0x1_0000 && MaskOp(code) == 0x1000 * op && FieldNNN(code) == a
  {
    DivMod(op, a, 0x1000);
  }

  /** The fields of a word made of an operation digit, a register and a byte. */
  lemma AssembleByte(op: Nibble, x: Nibble, kk: Byte)
    ensures var code := 0x1000 * op + 0x100 * x + kk;
      && 0 <= code < 0x1_0000 && MaskOp(code) == 0x1000 * op
      && FieldX(code) == x && FieldKK(code) == kk
  {
    DivMod(op, 0x100 * x + kk, 0x1000);
    DivMod(0x10 * op + x, kk, 0x100);
    DivMod(op, x, 0x10);
  }

  /** Clear, return and jump decode back. */
  lemma DecodeEncodeFlow(ins: Instruction)
    requires ins.Cls? || ins.Ret? || ins.Jump?
    ensures Decode(Encode(ins)) == ins
  {
    match ins
    case Cls =>
    case Ret =>
    case Jump(a) => AssembleAddr(0x1, a);
  }

  /** Calls and the offset jump decode back. */
  lemma DecodeEncodeCall(ins: Instruction)
    requires ins.Call? || ins.JumpV0?
    ensures Decode(Encode(ins)) == ins
  {
    match ins
    case Call(a) => AssembleAddr(0x2, a);
    case JumpV0(a) => AssembleAddr(0xB, a);
  }

  /** The byte skips and the byte load decode back. */
  lemma DecodeEncodeCompare(ins: Instruction)
    requires ins.SkipEqByte? || ins.SkipNeByte? || ins.LoadByte?
    ensures Decode(Encode(ins)) == ins
  {
    match ins
    case SkipEqByte(x, kk) => AssembleByte(0x3, x, kk);
    case SkipNeByte(x, kk) => AssembleByte(0x4, x, kk);
    case LoadByte(x, kk) => AssembleByte(0x6, x, kk);
  }

  /** Byte addition and the random byte decode back. */
  lemma DecodeEncodeImmediate(ins: Instruction)
    requires ins.AddByte? || ins.Random?
    ensures Decode(Encode(ins)) == ins
  {
    match ins
    case AddByte(x, kk) => AssembleByte(0x7, x, kk);
    case Random(x, kk) => AssembleByte(0xC, x, kk);
  }

  /** The register skip, copy and OR decode back. */
  lemma DecodeEncodeMove(ins: Instruction)
    requires ins.SkipEqReg? || ins.Move? || ins.Or?
    ensures Decode(Encode(ins)) == ins
  {
    match ins
    case SkipEqReg(x, y) => Assemble(0x5, x, y, 0x0);
    case Move(x, y) => Assemble(0x8, x, y, 0x0);
    case Or(x, y) => Assemble(0x8, x, y, 0x1);
  }

  /** AND and XOR decode back. */
  lemma DecodeEncodeLogic(ins: Instruction)
    requires ins.And? || ins.Xor?
    ensures Decode(Encode(ins)) == ins
  {
    match ins
    case And(x, y) => Assemble(0x8, x, y, 0x2);
    case Xor(x, y) => Assemble(0x8, x, y, 0x3);
  }

  /** Register addition and subtraction decode back. */
  lemma DecodeEncodeArithmetic(ins: Instruction)
    requires ins.Add? || ins.Sub?
    ensures Decode(Encode(ins)) == ins
  {
    match ins
    case Add(x, y) => Assemble(0x8, x, y, 0x4);
    case Sub(x, y) => Assemble(0x8, x, y, 0x5);
  }

  /** Right shift and reversed subtraction decode back. */
  lemma DecodeEncodeShift(ins: Instruction)
    requires ins.Shr? || ins.SubN?
    ensures Decode(Encode(ins)) == ins
  {
    match ins
    case Shr(x, y) => Assemble(0x8, x, y, 0x6);
    case SubN(x, y) => Assemble(0x8, x, y, 0x7);
  }

  /** Left shift and the register inequality skip decode back. */
  lemma DecodeEncodeShiftLeft(ins: Instruction)
    requires ins.Shl? || ins.SkipNeReg?
    ensures Decode(Encode(ins)) == ins
  {
    match ins
    case Shl(x, y) => Assemble(0x8, x, y, 0xE);
    case SkipNeReg(x, y) => Assemble(0x9, x, y, 0x0);
  }

  /** The index load and the draw decode back. */
  lemma DecodeEncodeIndex(ins: Instruction)
    requires ins.LoadIndex? || ins.Draw?
    ensures Decode(Encode(ins)) == ins
  {
    match ins
    case LoadIndex(a) => AssembleAddr(0xA, a);
    case Draw(x, y, n) => Assemble(0xD, x, y, n);
  }

  /** The key instructions decode back. */
  lemma DecodeEncodeKeys(ins: Instruction)
    requires ins.SkipKey? || ins.SkipNoKey? || ins.WaitKey?
    ensures Decode(Encode(ins)) == ins
  {
    match ins
    case SkipKey(x) => AssembleByte(0xE, x, 0x9E);
    case SkipNoKey(x) => AssembleByte(0xE, x, 0xA1);
    case WaitKey(x) => AssembleByte(0xF, x, 0x0A);
  }

  /** The delay timer instructions decode back. */
  lemma DecodeEncodeTimers(ins: Instruction)
    requires ins.ReadDelay? || ins.SetDelay?
    ensures Decode(Encode(ins)) == ins
  {
    match ins
    case ReadDelay(x) => AssembleByte(0xF, x, 0x07);
    case SetDelay(x) => AssembleByte(0xF, x, 0x15);
  }

  /** The sound timer and index addition decode back. */
  lemma DecodeEncodeSound(ins: Instruction)
    requires ins.SetSound? || ins.AddIndex?
    ensures Decode(Encode(ins)) == ins
  {
    match ins
    case SetSound(x) => AssembleByte(0xF, x, 0x18);
    case AddIndex(x) => AssembleByte(0xF, x, 0x1E);
  }

  /** The glyph and BCD instructions decode back. */
  lemma DecodeEncodeGlyph(ins: Instruction)
    requires ins.LoadGlyph? || ins.StoreBcd?
    ensures Decode(Encode(ins)) == ins
  {
    match ins
    case LoadGlyph(x) => AssembleByte(0xF, x, 0x29);
    case StoreBcd(x) => AssembleByte(0xF, x, 0x33);
  }

  /** The register transfers decode back. */
  lemma DecodeEncodeTransfer(ins: Instruction)
    requires ins.StoreRegs? || ins.LoadRegs?
    ensures Decode(Encode(ins)) == ins
  {
    match ins
    case StoreRegs(x) => AssembleByte(0xF, x, 0x55);
    case LoadRegs(x) => AssembleByte(0xF, x, 0x65);
  }

  /** Decoding the encoding of any instruction gives that instruction back. */
  lemma DecodeEncode(ins: Instruction)
    ensures Decode(Encode(ins)) == ins
  {
    if ins.Cls? || ins.Ret? || ins.Jump? {
      DecodeEncodeFlow(ins);
    } else if ins.Call? || ins.JumpV0? {
      DecodeEncodeCall(ins);
    } else if ins.SkipEqByte? || ins.SkipNeByte? || ins.LoadByte? {
      DecodeEncodeCompare(ins);
    } else if ins.AddByte? || ins.Random? {
      DecodeEncodeImmediate(ins);
    } else if ins.SkipEqReg? || ins.Move? || ins.Or? {
      DecodeEncodeMove(ins);
    } else if ins.And? || ins.Xor? {
      DecodeEncodeLogic(ins);
    } else if ins.Add? || ins.Sub? {
      DecodeEncodeArithmetic(ins);
    } else if ins.Shr? || ins.SubN? {
      DecodeEncodeShift(ins);
    } else if ins.Shl? || ins.SkipNeReg? {
      DecodeEncodeShiftLeft(ins);
    } else if ins.LoadIndex? || ins.Draw? {
      DecodeEncodeIndex(ins);
    } else if ins.SkipKey? || ins.SkipNoKey? || ins.WaitKey? {
      DecodeEncodeKeys(ins);
    } else if ins.ReadDelay? || ins.SetDelay? {
      DecodeEncodeTimers(ins);
    } else if ins.SetSound? || ins.AddIndex? {
      DecodeEncodeSound(ins);
    } else if ins.LoadGlyph? || ins.StoreBcd? {
      DecodeEncodeGlyph(ins);
    } else if ins.StoreRegs? || ins.LoadRegs? {
      DecodeEncodeTransfer(ins);
    }
  }

  /** Every word that decodes to an instruction is that instruction's encoding. */
  lemma EncodeDecode(code: U16)
    requires Decode(code) != Nop
    ensures Encode(Decode(code)) == code
  {
    Digits(code);
    if MaskOp(code) < 0x8000 {
      EncodeDecodeFlow(code);
    } else if MaskOp(code) < 0xA000 {
      EncodeDecodeRegisters(code);
    } else if MaskOp(code) < 0xE000 {
      EncodeDecodeIndex(code);
    } else {
      EncodeDecodeSystem(code);
    }
  }

  /** EncodeDecode for operation digits 0..7. */
  lemma EncodeDecodeFlow(code: U16)
    requires Decode(code) != Nop && MaskOp(code) < 0x8000
    ensures Encode(Decode(code)) == code
  {
    Digits(code);
  }

  /** EncodeDecode for operation digits 8 and 9. */
  lemma EncodeDecodeRegisters(code: U16)
    requires Decode(code) != Nop && 0x8000 <= MaskOp(code) < 0xA000
    ensures Encode(Decode(code)) == code
  {
    Digits(code);
  }

  /** EncodeDecode for operation digits A..D. */
  lemma EncodeDecodeIndex(code: U16)
    requires Decode(code) != Nop && 0xA000 <= MaskOp(code) < 0xE000
    ensures Encode(Decode(code)) == code
  {
    Digits(code);
  }

  /** EncodeDecode for operation digits E and F. */
  lemma EncodeDecodeSystem(code: U16)
    requires Decode(code) != Nop && 0xE000 <= MaskOp(code)
    ensures Encode(Decode(code)) == code
  {
    Digits(code);
  }
}
