/**
  Fetching an instruction word, splitting it into nibbles, extracting the
  address and immediate fields, and the dispatch table of `Chip8::execute`
  that maps a nibble pattern to the handler it runs.
 */
module Opcodes {
  import opened Bits
  import opened Machine

  /** Two raw bytes, high byte first (`type Opcode = (u8, u8)`). */
  datatype Opcode = Opcode(hi: u8, lo: u8)

  /** The four nibbles of an opcode, most significant first. */
  datatype Nibbles = Nibbles(n1: Nibble, n2: Nibble, n3: Nibble, n4: Nibble)

  /** `fetch_opcode`: the bytes at `pc` and `pc + 1`; either index may be out of range. */
  function Fetch(s: State): (r: Result<Opcode>)
  {
    if s.pc >= RAM_SIZE then Fault(IndexOutOfBounds)
    // `pc + 1` cannot overflow a u16 here, since `pc < 4096`
    else if s.pc + 1 >= RAM_SIZE then Fault(IndexOutOfBounds)
    else Ok(Opcode(s.memory[s.pc], s.memory[s.pc + 1]))
  }

  /** `u8::rotate_left(4)`: `(b << 4) | (b >> 4)`. */
  function RotateLeft4(b: u8): (r: u8)
    ensures r == (b % 16) * 16 + b / 16
  {
    assert Pow2(4) == 16 && Pow2(8) == 256;
    assert Shl(b, 4, 8) == (b % 16) * Pow2(4);
    Shr4(b);
    OrShifted(b % 16, Shr(b, 4), 4, 8);
    BitOr(Shl(b, 4, 8), Shr(b, 4), 8)
  }

  /** `decode`: the high nibble by `>> 4`, the low nibble by rotating it to the top and shifting it back down. */
  function Decode(op: Opcode): (d: Nibbles)
    ensures d.n1 * 16 + d.n2 == op.hi
    ensures d.n3 * 16 + d.n4 == op.lo
  {
    assert Pow2(4) == 16;
    Shr4(op.hi);
    Shr4(op.lo);
    Shr4(RotateLeft4(op.hi));
    Shr4(RotateLeft4(op.lo));
    Nibbles(Shr(op.hi, 4), Shr(RotateLeft4(op.hi), 4), Shr(op.lo, 4), Shr(RotateLeft4(op.lo), 4))
  }

  /** `nnn`: the last three nibbles accumulated into a u16 by or-ing and shifting. */
  function Nnn(d: Nibbles): (a: u16)
    ensures a == d.n2 * 256 + d.n3 * 16 + d.n4
    ensures a < 0x1000
  {
    var acc0 := BitOr(0, d.n2, 16);
    var acc1 := Shl(acc0, 4, 16);
    var acc2 := BitOr(acc1, d.n3, 16);
    var acc3 := Shl(acc2, 4, 16);
    var acc4 := BitOr(acc3, d.n4, 16);
    NnnSteps(d);
    acc4
  }

  lemma NnnSteps(d: Nibbles)
    ensures var acc1 := Shl(BitOr(0, d.n2, 16), 4, 16);
            var acc3 := Shl(BitOr(acc1, d.n3, 16), 4, 16);
            BitOr(acc3, d.n4, 16) == d.n2 * 256 + d.n3 * 16 + d.n4
  {
    assert P4: Pow2(4) == 16;
    assert P16: Pow2(16) == 0x1_0000;
    OrShifted(0, d.n2, 4, 16);
    assert BitOr(0, d.n2, 16) == d.n2;
    ShlExact(d.n2, 4, 16);
    var acc1 := d.n2 * 16;
    assert Shl(d.n2, 4, 16) == acc1;
    OrShifted(d.n2, d.n3, 4, 16);
    var acc2 := acc1 + d.n3;
    assert BitOr(acc1, d.n3, 16) == acc2;
    ShlExact(acc2, 4, 16);
    var acc3 := acc2 * 16;
    assert Shl(acc2, 4, 16) == acc3;
    OrShifted(acc2, d.n4, 4, 16);
    assert BitOr(acc3, d.n4, 16) == acc3 + d.n4;
  }

  /** `nn`: the last two nibbles as a byte, `(n3 << 4) | n4`. */
  function Nn(d: Nibbles): (b: u8)
    ensures b == d.n3 * 16 + d.n4
  {
    NnSteps(d);
    Or8(Shl(d.n3, 4, 8), d.n4)
  }

  lemma NnSteps(d: Nibbles)
    ensures Or8(Shl(d.n3, 4, 8), d.n4) == d.n3 * 16 + d.n4
  {
    assert Pow2(4) == 16 && Pow2(8) == 256;
    ShlExact(d.n3, 4, 8);
    assert Shl(d.n3, 4, 8) == d.n3 * 16;
    OrShifted(d.n3, d.n4, 4, 8);
  }

  /** The handlers of `execute`, one per arm of its `match`, with the operands each receives. */
  datatype Instr =
    | ClearScreen                           // 0??0
    | Return                                // 0??E
    | Jump(addr: u16)                       // 1nnn
    | Call(addr: u16)                       // 2nnn
    | SkipIfEqImm(x: Nibble, nn: u8)        // 3xnn
    | SkipIfNeImm(x: Nibble, nn: u8)        // 4xnn
    | SkipIfEqReg(x: Nibble, y: Nibble)     // 5xy?
    | SetImm(x: Nibble, nn: u8)             // 6xnn
    | AddImm(x: Nibble, nn: u8)             // 7xnn
    | Move(x: Nibble, y: Nibble)            // 8xy0
    | Or(x: Nibble, y: Nibble)              // 8xy1
    | And(x: Nibble, y: Nibble)             // 8xy2
    | Xor(x: Nibble, y: Nibble)             // 8xy3
    | AddReg(x: Nibble, y: Nibble)          // 8xy4
    | SubReg(x: Nibble, y: Nibble)          // 8xy5
    | ShiftRight(x: Nibble, y: Nibble)      // 8xy6
    | SubReversed(x: Nibble, y: Nibble)     // 8xy7
    | ShiftLeft(x: Nibble, y: Nibble)       // 8xyE
    | SkipIfNeReg(x: Nibble, y: Nibble)     // 9xy?
    | SetIndex(addr: u16)                   // Annn
    | JumpOffset(addr: u16)                 // Bnnn
    | Random(x: Nibble, nn: u8)             // Cxnn
    | Draw(x: Nibble, y: Nibble, n: Nibble) // Dxyn
    | SkipIfKey(x: Nibble)                  // Ex9?
    | SkipIfNotKey(x: Nibble)               // ExA?
    | ReadDelay(x: Nibble)                  // Fx07
    | WaitKey(x: Nibble)                    // Fx0A
    | SetDelay(x: Nibble)                   // Fx15
    | SetSound(x: Nibble)                   // Fx18
    | AddIndex(x: Nibble)                   // Fx1E
    | FontGlyph(x: Nibble)                  // Fx2?
    | StoreBcd(x: Nibble)                   // Fx3?
    | StoreRegisters(x: Nibble)             // Fx5?
    | LoadRegisters(x: Nibble)              // Fx6?
    | Unrecognised                          // the `_` arm
  {
    /** The handlers that are empty in the source: they change nothing but the program counter. */
    predicate IsStub() {
      || ClearScreen? || ShiftRight? || ShiftLeft? || SkipIfKey? || SkipIfNotKey?
      || ReadDelay? || WaitKey? || SetDelay? || SetSound? || AddIndex? || FontGlyph? || StoreBcd?
    }

    /** The conditional skips: their handler reports whether to step over the next instruction. */
    predicate IsSkip() {
      SkipIfEqImm? || SkipIfNeImm? || SkipIfEqReg? || SkipIfNeReg?
    }

    /** The arms that clear `update_pc`: they set the program counter themselves. */
    predicate IsTransfer() {
      Jump? || Call? || JumpOffset?
    }
  }

  /**
    The `match` of `execute`. Arms are tried in order, and several match on
    only some nibbles: every `0???0` is a screen clear, every `0???E` a return,
    `5xy?` and `9xy?` ignore the last nibble, and `Ex9?`, `ExA?`, `Fx2?`,
    `Fx3?`, `Fx5?` and `Fx6?` ignore it too. Anything else is a no-op.
   */
  function Dispatch(d: Nibbles): Instr {
    var x, y := d.n2, d.n3;
    match d.n1
    case 0x0 =>
      if d.n4 == 0x0 then ClearScreen
      else if d.n4 == 0xE then Return
      else Unrecognised
    case 0x1 => Jump(Nnn(d))
    case 0x2 => Call(Nnn(d))
    case 0x3 => SkipIfEqImm(x, Nn(d))
    case 0x4 => SkipIfNeImm(x, Nn(d))
    case 0x5 => SkipIfEqReg(x, y)
    case 0x6 => SetImm(x, Nn(d))
    case 0x7 => AddImm(x, Nn(d))
    case 0x8 =>
      (match d.n4
       case 0x0 => Move(x, y)
       case 0x1 => Or(x, y)
       case 0x2 => And(x, y)
       case 0x3 => Xor(x, y)
       case 0x4 => AddReg(x, y)
       case 0x5 => SubReg(x, y)
       case 0x6 => ShiftRight(x, y)
       case 0x7 => SubReversed(x, y)
       case 0xE => ShiftLeft(x, y)
       case _ => Unrecognised)
    case 0x9 => SkipIfNeReg(x, y)
    case 0xA => SetIndex(Nnn(d))
    case 0xB => JumpOffset(Nnn(d))
    case 0xC => Random(x, Nn(d))
    case 0xD => Draw(x, y, d.n4)
    case 0xE =>
      if d.n3 == 0x9 then SkipIfKey(x)
      else if d.n3 == 0xA then SkipIfNotKey(x)
      else Unrecognised
    case _ =>
      if d.n3 == 0x0 && d.n4 == 0x7 then ReadDelay(x)
      else if d.n3 == 0x0 && d.n4 == 0xA then WaitKey(x)
      else if d.n3 == 0x1 && d.n4 == 0x5 then SetDelay(x)
      else if d.n3 == 0x1 && d.n4 == 0x8 then SetSound(x)
      else if d.n3 == 0x1 && d.n4 == 0xE then AddIndex(x)
      else if d.n3 == 0x2 then FontGlyph(x)
      else if d.n3 == 0x3 then StoreBcd(x)
      else if d.n3 == 0x5 then StoreRegisters(x)
      else if d.n3 == 0x6 then LoadRegisters(x)
      else Unrecognised
  }

  /** The instructions that have an encoding: addresses fit in the 12-bit field. */
  predicate Encodable(ins: Instr) {
    match ins
    case Jump(a) => a < 0x1000
    case Call(a) => a < 0x1000
    case SetIndex(a) => a < 0x1000
    case JumpOffset(a) => a < 0x1000
    case Unrecognised => false
    case _ => true
  }

  /** Every instruction the table dispatches to, except the no-op arm, has an encoding: `nnn` yields a 12-bit address. */
  lemma DispatchEncodable(d: Nibbles)
    ensures Dispatch(d).Unrecognised? || Encodable(Dispatch(d))
  {
    if d.n1 in {0x1, 0x2, 0xA, 0xB} {
      assert Dispatch(d).addr == Nnn(d) < 0x1000;
    } else {
      assert !Dispatch(d).IsTransfer() && !Dispatch(d).SetIndex?;
    }
  }

  /** The canonical opcode of an instruction (an assembler for the dispatch table). */
  function Assemble(ins: Instr): (d: Nibbles)
    requires Encodable(ins)
  {
    match ins
    case ClearScreen => Nibbles(0x0, 0x0, 0xE, 0x0)
    case Return => Nibbles(0x0, 0x0, 0xE, 0xE)
    case Jump(a) => WithAddress(0x1, a)
    case Call(a) => WithAddress(0x2, a)
    case SkipIfEqImm(x, nn) => WithImmediate(0x3, x, nn)
    case SkipIfNeImm(x, nn) => WithImmediate(0x4, x, nn)
    case SkipIfEqReg(x, y) => Nibbles(0x5, x, y, 0x0)
    case SetImm(x, nn) => WithImmediate(0x6, x, nn)
    case AddImm(x, nn) => WithImmediate(0x7, x, nn)
    case Move(x, y) => Nibbles(0x8, x, y, 0x0)
    case Or(x, y) => Nibbles(0x8, x, y, 0x1)
    case And(x, y) => Nibbles(0x8, x, y, 0x2)
    case Xor(x, y) => Nibbles(0x8, x, y, 0x3)
    case AddReg(x, y) => Nibbles(0x8, x, y, 0x4)
    case SubReg(x, y) => Nibbles(0x8, x, y, 0x5)
    case ShiftRight(x, y) => Nibbles(0x8, x, y, 0x6)
    case SubReversed(x, y) => Nibbles(0x8, x, y, 0x7)
    case ShiftLeft(x, y) => Nibbles(0x8, x, y, 0xE)
    case SkipIfNeReg(x, y) => Nibbles(0x9, x, y, 0x0)
    case SetIndex(a) => WithAddress(0xA, a)
    case JumpOffset(a) => WithAddress(0xB, a)
    case Random(x, nn) => WithImmediate(0xC, x, nn)
    case Draw(x, y, n) => Nibbles(0xD, x, y, n)
    case SkipIfKey(x) => Nibbles(0xE, x, 0x9, 0xE)
    case SkipIfNotKey(x) => Nibbles(0xE, x, 0xA, 0x1)
    case ReadDelay(x) => Nibbles(0xF, x, 0x0, 0x7)
    case WaitKey(x) => Nibbles(0xF, x, 0x0, 0xA)
    case SetDelay(x) => Nibbles(0xF, x, 0x1, 0x5)
    case SetSound(x) => Nibbles(0xF, x, 0x1, 0x8)
    case AddIndex(x) => Nibbles(0xF, x, 0x1, 0xE)
    case FontGlyph(x) => Nibbles(0xF, x, 0x2, 0x9)
    case StoreBcd(x) => Nibbles(0xF, x, 0x3, 0x3)
    case StoreRegisters(x) => Nibbles(0xF, x, 0x5, 0x5)
    case LoadRegisters(x) => Nibbles(0xF, x, 0x6, 0x5)
  }

  function WithAddress(n1: Nibble, a: u16): Nibbles
    requires a < 0x1000
  {
    var rest := a / 0x10;
    Nibbles(n1, rest / 0x10, rest % 0x10, a % 0x10)
  }

  function WithImmediate(n1: Nibble, x: Nibble, nn: u8): Nibbles {
    Nibbles(n1, x, nn / 0x10, nn % 0x10)
  }

  /** The 16-bit instruction word whose nibbles these are, as written in a program listing. */
  function Word(d: Nibbles): u16 {
    d.n1 * 0x1000 + d.n2 * 0x100 + d.n3 * 0x10 + d.n4
  }

  /** Decoding the big-endian bytes of an instruction word gives back its nibbles. */
  lemma DecodeWord(d: Nibbles)
    ensures Decode(Opcode(ToBeBytes(Word(d)).0, ToBeBytes(Word(d)).1)) == d
  {
    WordBytes(d);
    var e := Decode(Opcode(d.n1 * 16 + d.n2, d.n3 * 16 + d.n4));
    SameByte(e.n1, e.n2, d.n1, d.n2);
    SameByte(e.n3, e.n4, d.n3, d.n4);
  }

  /** The converse: the nibbles decoded from a word's big-endian bytes recombine into the word. */
  lemma WordOfDecode(w: u16)
    ensures Word(Decode(Opcode(ToBeBytes(w).0, ToBeBytes(w).1))) == w
  {
    var d := Decode(Opcode(ToBeBytes(w).0, ToBeBytes(w).1));
    assert d.n1 * 16 + d.n2 == w / 0x100;
    assert d.n3 * 16 + d.n4 == w % 0x100;
  }

  lemma WordBytes(d: Nibbles)
    ensures ToBeBytes(Word(d)) == (d.n1 * 16 + d.n2, d.n3 * 16 + d.n4)
  {
    var hi, lo := d.n1 * 16 + d.n2, d.n3 * 16 + d.n4;
    assert Word(d) == hi * 0x100 + lo;
    SplitWord(Word(d), hi, lo);
  }

  lemma SplitWord(w: int, hi: int, lo: int)
    requires 0 <= lo < 0x100 && w == hi * 0x100 + lo
    ensures w / 0x100 == hi && w % 0x100 == lo
  {
  }

  /** A byte has one split into a high and a low nibble. */
  lemma SameByte(a1: Nibble, a2: Nibble, b1: Nibble, b2: Nibble)
    requires a1 * 16 + a2 == b1 * 16 + b2
    ensures a1 == b1 && a2 == b2
  {
  }

  lemma AddressField(n1: Nibble, a: u16)
    requires a < 0x1000
    ensures Nnn(WithAddress(n1, a)) == a
  {
    var d := WithAddress(n1, a);
    assert d.n2 * 256 + d.n3 * 16 + d.n4 == a by {
      var rest := a / 0x10;
      assert a == rest * 16 + a % 16;
      assert rest == (a / 0x100) * 16 + rest % 16;
    }
  }

  lemma ImmediateField(n1: Nibble, x: Nibble, nn: u8)
    ensures Nn(WithImmediate(n1, x, nn)) == nn
  {
  }

  /**
    The dispatch table and the assembler agree: the canonical nibbles of
    every encodable instruction dispatch back to it.
   */
  lemma DispatchAssembled(ins: Instr)
    requires Encodable(ins)
    ensures Dispatch(Assemble(ins)) == ins
  {
    if ins.Jump? || ins.Call? || ins.SetIndex? || ins.JumpOffset? {
      DispatchAddress(ins);
    } else if ins.SkipIfEqImm? || ins.SkipIfNeImm? || ins.SetImm? || ins.AddImm? || ins.Random? {
      DispatchImmediate(ins);
    } else if Assemble(ins).n1 == 0x8 {
      DispatchArithmetic(ins);
    } else if Assemble(ins).n1 == 0xF {
      DispatchMisc(ins);
    } else {
      DispatchOther(ins);
    }
  }

  lemma DispatchAddress(ins: Instr)
    requires Encodable(ins) && (ins.Jump? || ins.Call? || ins.SetIndex? || ins.JumpOffset?)
    ensures Dispatch(Assemble(ins)) == ins
  {
    var n1: Nibble := if ins.Jump? then 0x1 else if ins.Call? then 0x2 else if ins.SetIndex? then 0xA else 0xB;
    assert Assemble(ins) == WithAddress(n1, ins.addr);
    DispatchWithAddress(n1, ins.addr);
  }

  /** The four address-carrying groups dispatch on the first nibble and read the address back with `nnn`. */
  lemma DispatchWithAddress(n1: Nibble, a: u16)
    requires a < 0x1000 && (n1 == 0x1 || n1 == 0x2 || n1 == 0xA || n1 == 0xB)
    ensures Dispatch(WithAddress(n1, a)) ==
      if n1 == 0x1 then Jump(a) else if n1 == 0x2 then Call(a) else if n1 == 0xA then SetIndex(a) else JumpOffset(a)
  {
    var d := WithAddress(n1, a);
    AddressField(n1, a);
    assert d.n1 == n1;
  }

  lemma DispatchImmediate(ins: Instr)
    requires ins.SkipIfEqImm? || ins.SkipIfNeImm? || ins.SetImm? || ins.AddImm? || ins.Random?
    ensures Dispatch(Assemble(ins)) == ins
  {
    ImmediateField(Assemble(ins).n1, ins.x, ins.nn);
  }

  lemma DispatchArithmetic(ins: Instr)
    requires Encodable(ins) && Assemble(ins).n1 == 0x8
    ensures Dispatch(Assemble(ins)) == ins
  {
  }

  lemma DispatchMisc(ins: Instr)
    requires Encodable(ins) && Assemble(ins).n1 == 0xF
    ensures Dispatch(Assemble(ins)) == ins
  {
  }

  lemma DispatchOther(ins: Instr)
    requires Encodable(ins) && !ins.IsTransfer() && !ins.SetIndex?
    requires !(ins.SkipIfEqImm? || ins.SkipIfNeImm? || ins.SetImm? || ins.AddImm? || ins.Random?)
    requires Assemble(ins).n1 != 0x8 && Assemble(ins).n1 != 0xF
    ensures Dispatch(Assemble(ins)) == ins
  {
  }
}
