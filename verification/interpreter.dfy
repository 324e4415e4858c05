/**
  One tick of the interpreter (`Chip8::tick`): fetch, decode, dispatch to a
  handler, then advance the program counter the way `execute` does.

  The random source contributes the single `u32` that Cxnn draws; it is an
  argument of the tick. Display writes are side effects whose errors are
  ignored, so they do not appear. A Rust panic ends the tick as a `Fault`.
 */
module Interpreter {
  import opened Bits
  import opened Machine
  import opened Opcodes
  import opened Sprite
  import opened RegisterBlock

  /** The value a flag register receives: `if over { 1 } else { 0 }`. */
  function Flag(b: bool): u8 {
    if b then 1 else 0
  }

  /** The state with register `x` set to `v`. */
  function SetReg(s: State, x: Nibble, v: u8): State {
    s.(registers := s.registers[x := v])
  }

  /** `_00ee`: the program counter is loaded from the current stack slot, then the stack pointer drops. */
  function ReturnFrom(s: State): Result<State> {
    if s.sp >= STACK_SIZE then Fault(IndexOutOfBounds)
    else if s.sp == 0 then Fault(ArithmeticOverflow)
    else Ok(s.(pc := s.stack[s.sp], sp := s.sp - 1))
  }

  /** `_2nnn`: the stack pointer rises, the slot it now names receives the CALL's own address, and control moves to `addr`. */
  function CallTo(s: State, addr: u16): Result<State> {
    if s.sp + 1 >= 0x1_0000_0000_0000_0000 then Fault(ArithmeticOverflow)
    else if s.sp + 1 >= STACK_SIZE then Fault(IndexOutOfBounds)
    else Ok(s.(sp := s.sp + 1, stack := s.stack[s.sp + 1 := s.pc], pc := addr))
  }

  /** `_bnnn`: a jump to `addr + V0`, a u16 addition. */
  function JumpWithOffset(s: State, addr: u16): Result<State> {
    if addr + s.registers[0] > 0xFFFF then Fault(ArithmeticOverflow)
    else Ok(s.(pc := addr + s.registers[0]))
  }

  /** `_8xy4`, `_8xy5`, `_8xy7`: the result goes to `dst`, then the flag to VF, so `dst == VF` keeps the flag. */
  function WithFlag(s: State, dst: Nibble, r: (u8, bool)): State {
    s.(registers := s.registers[dst := r.0][VF := Flag(r.1)])
  }

  /**
    The arm of `execute` that runs `ins`: the new state and whether the
    handler asks to skip the next instruction. `r` is the random word.
   */
  function Handle(s: State, ins: Instr, r: u32): Result<(State, bool)> {
    var V := s.registers;
    match ins
    case Return => var t :- ReturnFrom(s); Ok((t, false))
    case Jump(a) => Ok((s.(pc := a), false))
    case Call(a) => var t :- CallTo(s, a); Ok((t, false))
    case SkipIfEqImm(x, nn) => Ok((s, V[x] == nn))
    case SkipIfNeImm(x, nn) => Ok((s, V[x] != nn))
    case SkipIfEqReg(x, y) => Ok((s, V[x] == V[y]))
    case SetImm(x, nn) => Ok((SetReg(s, x, nn), false))
    case AddImm(x, nn) => Ok((SetReg(s, x, OverflowingAdd(V[x], nn).0), false))
    case Move(x, y) => Ok((SetReg(s, x, V[y]), false))
    case Or(x, y) => Ok((SetReg(s, x, Or8(V[x], V[y])), false))
    case And(x, y) => Ok((SetReg(s, x, And8(V[x], V[y])), false))
    case Xor(x, y) => Ok((SetReg(s, x, Xor8(V[x], V[y])), false))
    case AddReg(x, y) => Ok((WithFlag(s, x, OverflowingAdd(V[x], V[y])), false))
    case SubReg(x, y) => Ok((WithFlag(s, x, OverflowingSub(V[x], V[y])), false))
    case SubReversed(x, y) => Ok((WithFlag(s, y, OverflowingSub(V[y], V[x])), false))
    case SkipIfNeReg(x, y) => Ok((s, V[x] != V[y]))
    case SetIndex(a) => Ok((s.(index := a), false))
    case JumpOffset(a) => var t :- JumpWithOffset(s, a); Ok((t, false))
    case Random(x, nn) => Ok((SetReg(s, x, And8(TopNibble(r), nn)), false))
    case Draw(x, y, n) => var t :- DrawSprite(s, x, y, n); Ok((t, false))
    case StoreRegisters(x) => var t :- RegisterBlock.StoreRegisters(s, x); Ok((t, false))
    case LoadRegisters(x) => var t :- RegisterBlock.LoadRegisters(s, x); Ok((t, false))
    // the screen clear only writes to the display; the rest have empty handlers
    case _ => Ok((s, false))
  }

  /**
    `execute`: runs the handler, then adds 2 to the program counter, or 4 when
    the handler asks for a skip, unless the arm set the counter itself. The
    addition is on a u16 and panics on overflow.
   */
  function Execute(s: State, ins: Instr, r: u32): Result<State> {
    var handled :- Handle(s, ins, r);
    var t := handled.0;
    if ins.IsTransfer() then Ok(t)
    else
      var increment := if handled.1 then 4 else 2;
      if t.pc + increment > 0xFFFF then Fault(ArithmeticOverflow)
      else Ok(t.(pc := t.pc + increment))
  }

  /** The instruction a tick runs when the program counter is at `s.pc`. */
  function Current(s: State): Result<Instr> {
    var op :- Fetch(s);
    Ok(Dispatch(Decode(op)))
  }

  /** `tick`: fetch, decode, execute. */
  function Step(s: State, r: u32): Result<State> {
    var ins :- Current(s);
    Execute(s, ins, r)
  }
}
