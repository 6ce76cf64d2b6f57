/** The CHIP-8 machine state and the constants it is built from
    (the `CPU` record and the constants of the emulator's header), together
    with the pure part of loading a program image.
 */
module Machine {
  import opened Bits

  const MemorySize := 0x1000
  const RegisterCount := 0x10
  const ScreenHeight := 32
  const ScreenWidth := 64

  /** Where the font glyphs and the program image are placed. */
  const SpritesAddress := 0x100
  const InitAddress := 0x200

  /** Timer writes are scaled by this factor and the CPU runs this many times 60 Hz. */
  const TimerScale := 8
  const CpuSpeed := TimerScale * 60

  const ColorBlack: U32 := 0xFF00_0000
  const ColorWhite: U32 := 0xFFFF_FFFF

  /** The flag register VF. */
  const Flag := 0xF

  type U16 = n: int | 0 <= n < 0x1_0000
  type U32 = n: int | 0 <= n < 0x1_0000_0000

  /** A register number, the x or y nibble of an instruction. */
  type Reg = r: int | 0 <= r < RegisterCount

  type Memory = m: seq<Byte> | |m| == MemorySize witness seq(0x1000, _ => 0)
  type Registers = v: seq<Byte> | |v| == RegisterCount witness seq(0x10, _ => 0)

  /** The framebuffer, indexed [y][x]: 32 rows of 64 colour values. */
  type Screen = s: seq<seq<U32>> | |s| == ScreenHeight && forall r | 0 <= r < |s| :: |s[r]| == ScreenWidth
    witness seq(32, _ => seq(64, _ => 0))

  datatype Cpu = Cpu(
    i: U16,                 // index register
    pc: U16,                // program counter
    memory: Memory,
    registers: Registers,   // V0 .. VF
    stack: seq<U16>,        // return addresses, top of stack last
    delayTimer: U32,
    soundTimer: U32,
    bitScreen: Screen)

  /** A pixel is lit exactly when it holds the white colour value. */
  predicate IsOn(p: U32)
    ensures IsOn(p) ==> p != ColorBlack && p != 0
  {
    p == ColorWhite
  }

  /** The pc after one 16-bit instruction word, wrapping like an `unsigned short`. */
  function Next(pc: U16): (r: U16)
    ensures (r - pc) % 0x1_0000 == 2 && r != pc
  {
    (pc + 2) % 0x1_0000
  }

  /** The hexadecimal digit glyphs 0..F, five rows of one byte each. */
  const SpritesTable: seq<Byte> := [
    0xF0, 0x90, 0x90, 0x90, 0xF0,  // 0
    0x20, 0x60, 0x20, 0x20, 0x70,  // 1
    0xF0, 0x10, 0xF0, 0x80, 0xF0,  // 2
    0xF0, 0x10, 0xF0, 0x10, 0xF0,  // 3
    0x90, 0x90, 0xF0, 0x10, 0x10,  // 4
    0xF0, 0x80, 0xF0, 0x10, 0xF0,  // 5
    0xF0, 0x80, 0xF0, 0x90, 0xF0,  // 6
    0xF0, 0x10, 0x20, 0x40, 0x40,  // 7
    0xF0, 0x90, 0xF0, 0x90, 0xF0,  // 8
    0xF0, 0x90, 0xF0, 0x10, 0xF0,  // 9
    0xF0, 0x90, 0xF0, 0x90, 0x90,  // A
    0xE0, 0x90, 0xE0, 0x90, 0xE0,  // B
    0xF0, 0x80, 0x80, 0x80, 0xF0,  // C
    0xE0, 0x90, 0x90, 0x90, 0xE0,  // D
    0xF0, 0x80, 0xF0, 0x80, 0xF0,  // E
    0xF0, 0x80, 0xF0, 0x80, 0x80   // F
  ]

  const GlyphHeight := 5

  /** The five rows of the glyph for hexadecimal digit d. */
  function Glyph(d: int): (g: seq<Byte>)
    requires 0 <= d < 16
    ensures |g| == GlyphHeight
    ensures forall k | 0 <= k < GlyphHeight :: g[k] == SpritesTable[GlyphHeight * d + k]
  {
    SpritesTable[GlyphHeight * d .. GlyphHeight * d + GlyphHeight]
  }

  /** The font occupies 16 glyphs of 5 bytes and ends before the program image. */
  lemma FontLayout()
    ensures |SpritesTable| == 16 * GlyphHeight == 80
    ensures SpritesAddress + |SpritesTable| <= InitAddress
    ensures CpuSpeed == 480 && CpuSpeed == TimerScale * 60
  {
  }

  /** The font table is resident at SpritesAddress. */
  predicate FontResident(m: Memory)
  {
    m[SpritesAddress .. SpritesAddress + |SpritesTable|] == SpritesTable
  }

  /** A value-initialised CPU record: everything zero except pc. */
  function Blank(): (c: Cpu)
    ensures c.i == 0 && c.pc == InitAddress && c.stack == []
    ensures c.delayTimer == 0 && c.soundTimer == 0
    ensures forall a | 0 <= a < MemorySize :: c.memory[a] == 0
    ensures forall k | 0 <= k < RegisterCount :: c.registers[k] == 0
    ensures forall r, col | 0 <= r < ScreenHeight && 0 <= col < ScreenWidth :: c.bitScreen[r][col] == 0
    ensures forall r, col | 0 <= r < ScreenHeight && 0 <= col < ScreenWidth :: !IsOn(c.bitScreen[r][col])
  {
    Cpu(0, InitAddress, seq(0x1000, _ => 0), seq(0x10, _ => 0), [], 0, 0, seq(32, _ => seq(64, _ => 0)))
  }

  /** The most program bytes that fit between InitAddress and the end of memory. */
  const MaxRomSize := MemorySize - InitAddress

  /** Load a program image: the font at SpritesAddress, then the first
      MaxRomSize bytes of the image at InitAddress. Longer images are cut off. */
  function Load(rom: seq<Byte>): (c: Cpu)
    ensures var n := if |rom| < MaxRomSize then |rom| else MaxRomSize;
      && c.memory[InitAddress .. InitAddress + n] == rom[..n]
      && (forall a | InitAddress + n <= a < MemorySize :: c.memory[a] == 0)
    ensures FontResident(c.memory)
    ensures forall a | 0 <= a < SpritesAddress || SpritesAddress + |SpritesTable| <= a < InitAddress :: c.memory[a] == 0
    ensures c == Blank().(memory := c.memory)
  {
    var n := if |rom| < MaxRomSize then |rom| else MaxRomSize;
    var image := seq(MemorySize, a requires 0 <= a < MemorySize => LoadedCell(rom, n, a));
    Blank().(memory := image)
  }

  /** Memory cell a after loading n image bytes: font, image or zero. */
  function LoadedCell(rom: seq<Byte>, n: nat, a: int): (b: Byte)
    requires n <= |rom| && n <= MaxRomSize
    ensures SpritesAddress <= a < SpritesAddress + |SpritesTable| ==> b == SpritesTable[a - SpritesAddress]
    ensures InitAddress <= a < InitAddress + n ==> b == rom[a - InitAddress]
    ensures !(SpritesAddress <= a < SpritesAddress + |SpritesTable| || InitAddress <= a < InitAddress + n) ==> b == 0
  {
    if SpritesAddress <= a < SpritesAddress + |SpritesTable| then SpritesTable[a - SpritesAddress]
    else if InitAddress <= a < InitAddress + n then rom[a - InitAddress]
    else 0
  }
}
