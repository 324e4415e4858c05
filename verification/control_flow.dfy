/**
  How a tick moves the program counter and the call stack, and when it
  panics, stated against reference definitions that list the rules of
  `execute` instruction by instruction.
 */
module ControlFlow {
  import opened Bits
  import opened Machine
  import opened Opcodes
  import opened Sprite
  import opened RegisterBlock
  import opened Interpreter

  /** The condition under which a conditional-skip instruction steps over the next one. */
  predicate SkipTaken(s: State, ins: Instr) {
    var V := s.registers;
    match ins
    case SkipIfEqImm(x, nn) => V[x] == nn
    case SkipIfNeImm(x, nn) => V[x] != nn
    case SkipIfEqReg(x, y) => V[x] == V[y]
    case SkipIfNeReg(x, y) => V[x] != V[y]
    case _ => false
  }

  /** The address the next instruction would be fetched from under the default advance: 2, or 4 over a taken skip. */
  function Advance(s: State, ins: Instr): int {
    s.pc + (if SkipTaken(s, ins) then 4 else 2)
  }

  /**
    When `ins` runs without a panic: each condition names an index that must
    be in range or an addition that must not overflow.
   */
  predicate CanExecute(s: State, ins: Instr) {
    match ins
    case Return => 0 < s.sp < STACK_SIZE && s.stack[s.sp] as int + 2 <= 0xFFFF
    case Jump(_) => true
    case Call(_) => s.sp + 1 < STACK_SIZE
    case JumpOffset(a) => a + s.registers[0] <= 0xFFFF
    case Draw(x, y, n) => Drawable(s, x, y, n) && Advance(s, ins) <= 0xFFFF
    case StoreRegisters(x) => BlockFits(s.index, x) && Advance(s, ins) <= 0xFFFF
    case LoadRegisters(x) => BlockFits(s.index, x) && Advance(s, ins) <= 0xFFFF
    case _ => Advance(s, ins) <= 0xFFFF
  }

  /** The program counter after `ins`, when it does not panic. */
  predicate PcAfter(s: State, ins: Instr, pc: int) {
    match ins
    case Jump(a) => pc == a
    case Call(a) => pc == a
    case JumpOffset(a) => pc == a + s.registers[0]
    case Return => s.sp < STACK_SIZE && pc == s.stack[s.sp] as int + 2
    case _ => pc == Advance(s, ins)
  }

  /**
    PC discipline: an instruction panics exactly when `CanExecute` fails, and
    otherwise jumps set the counter without an increment, a return resumes 2
    past the saved address, a taken skip adds 4 and everything else adds 2.
   */
  lemma ExecutePc(s: State, ins: Instr, r: u32)
    ensures Execute(s, ins, r).Ok? <==> CanExecute(s, ins)
    ensures Execute(s, ins, r).Ok? ==> PcAfter(s, ins, Execute(s, ins, r).value.pc)
  {
    if ins.Draw? || ins.StoreRegisters? || ins.LoadRegisters? {
      ExecutePcMemory(s, ins, r);
    } else if ins.Return? || ins.IsTransfer() {
      ExecutePcTransfer(s, ins, r);
    } else {
      ExecutePcAdvance(s, ins, r);
    }
  }

  /** `ExecutePc` for the instructions that index memory or the framebuffer. */
  lemma ExecutePcMemory(s: State, ins: Instr, r: u32)
    requires ins.Draw? || ins.StoreRegisters? || ins.LoadRegisters?
    ensures Execute(s, ins, r).Ok? <==> CanExecute(s, ins)
    ensures Execute(s, ins, r).Ok? ==> PcAfter(s, ins, Execute(s, ins, r).value.pc)
  {
    match ins {
      case Draw(x, y, n) =>
        DrawSpriteOk(s, x, y, n);
      case StoreRegisters(x) =>
        StoreRegistersSpec(s, x);
      case LoadRegisters(x) =>
        LoadRegistersSpec(s, x);
    }
  }

  /** `ExecutePc` for the instructions that set the counter themselves, and RETURN. */
  lemma ExecutePcTransfer(s: State, ins: Instr, r: u32)
    requires ins.Return? || ins.IsTransfer()
    ensures Execute(s, ins, r).Ok? <==> CanExecute(s, ins)
    ensures Execute(s, ins, r).Ok? ==> PcAfter(s, ins, Execute(s, ins, r).value.pc)
  {
  }

  /** `ExecutePc` for the instructions that only take the default advance. */
  lemma ExecutePcAdvance(s: State, ins: Instr, r: u32)
    requires !(ins.Draw? || ins.StoreRegisters? || ins.LoadRegisters? || ins.Return? || ins.IsTransfer())
    ensures Execute(s, ins, r).Ok? <==> CanExecute(s, ins)
    ensures Execute(s, ins, r).Ok? ==> PcAfter(s, ins, Execute(s, ins, r).value.pc)
  {
  }

  /** Fx55 and Fx65 whose block fits run the register-block handler and advance the counter by 2. */
  lemma ExecuteBlock(s: State, ins: Instr, r: u32)
    requires ins.StoreRegisters? || ins.LoadRegisters?
    requires BlockFits(s.index, ins.x) && s.pc + 2 <= 0xFFFF
    ensures var block := if ins.StoreRegisters? then RegisterBlock.StoreRegisters(s, ins.x) else RegisterBlock.LoadRegisters(s, ins.x);
      && block.Ok?
      && Execute(s, ins, r) == Ok(block.value.(pc := s.pc + 2))
  {
    if ins.StoreRegisters? {
      StoreRegistersSpec(s, ins.x);
    } else {
      LoadRegistersSpec(s, ins.x);
    }
  }

  /**
    RETURN from any depth: it succeeds exactly when the stack pointer names a
    slot above 0 and the saved address leaves room for the `+ 2`; it then
    resumes 2 past that address with the stack pointer one lower, and
    changes nothing else.
   */
  lemma ReturnSpec(s: State, r: u32)
    ensures Execute(s, Return, r).Ok? <==> 0 < s.sp < STACK_SIZE && s.stack[s.sp] as int + 2 <= 0xFFFF
    ensures Execute(s, Return, r).Ok? ==>
      Execute(s, Return, r).value == s.(pc := s.stack[s.sp] + 2, sp := s.sp - 1)
  {
  }

  /** Annn loads `nnn` into the index register and changes nothing else but the counter. */
  lemma SetIndexSpec(s: State, a: u16, r: u32)
    requires s.pc + 2 <= 0xFFFF
    ensures Execute(s, SetIndex(a), r) == Ok(s.(index := a, pc := s.pc + 2))
  {
  }

  /** A CALL from a full stack indexes past its end. */
  lemma CallOnFullStack(s: State, a: u16, r: u32)
    requires s.sp == STACK_SIZE - 1
    ensures Execute(s, Call(a), r) == Fault(IndexOutOfBounds)
  {
  }

  /** A RETURN on an empty stack decrements the stack pointer below zero. */
  lemma ReturnOnEmptyStack(s: State, r: u32)
    requires s.sp == 0
    ensures Execute(s, Return, r) == Fault(ArithmeticOverflow)
  {
  }

  /**
    CALL pushes its own address into the slot above the stack pointer and
    changes nothing else but the counter and the stack pointer.
   */
  lemma CallSpec(s: State, a: u16, r: u32)
    requires s.sp + 1 < STACK_SIZE
    ensures Execute(s, Call(a), r).Ok?
    ensures var t := Execute(s, Call(a), r).value;
      && t.sp == s.sp + 1
      && t.stack[t.sp] == s.pc
      && (forall k | 0 <= k < STACK_SIZE && k != t.sp :: t.stack[k] == s.stack[k])
      && t.pc == a
      && t == s.(pc := t.pc, sp := t.sp, stack := t.stack)
  {
  }

  /**
    A CALL immediately followed by a RETURN resumes 2 past the CALL, with the
    stack pointer restored; only the slot the CALL wrote keeps its trace.
   */
  lemma CallThenReturn(s: State, a: u16, r1: u32, r2: u32)
    requires s.sp + 1 < STACK_SIZE
    requires s.pc + 2 <= 0xFFFF
    ensures Execute(s, Call(a), r1).Ok?
    ensures var s1 := Execute(s, Call(a), r1).value;
      && Execute(s1, Return, r2).Ok?
      && Execute(s1, Return, r2).value == s.(pc := s.pc + 2, stack := s.stack[s.sp + 1 := s.pc])
  {
    CallSpec(s, a, r1);
  }

  /** The instructions with empty handlers, and the opcodes no arm matches, only advance the counter. */
  lemma StubsOnlyAdvance(s: State, ins: Instr, r: u32)
    requires ins.IsStub() || ins.Unrecognised?
    ensures Execute(s, ins, r).Ok? <==> s.pc + 2 <= 0xFFFF
    ensures Execute(s, ins, r).Ok? ==> Execute(s, ins, r).value == s.(pc := s.pc + 2)
  {
  }

  /**
    Nothing but Dxyn touches the framebuffer, nothing touches the timers,
    only Fx55 writes memory, only Annn sets the index register, and only
    CALL and RETURN move the stack pointer; only CALL writes the stack, and
    never slot 0. The skips, the jumps, CALL, RETURN and Annn leave every
    register alone.
   */
  lemma ExecuteUnchanged(s: State, ins: Instr, r: u32)
    requires Execute(s, ins, r).Ok?
    ensures var t := Execute(s, ins, r).value;
      && t.delayTimer == s.delayTimer
      && t.soundTimer == s.soundTimer
      && t.stack[0] == s.stack[0]
      && (!ins.Call? ==> t.stack == s.stack)
      && (!ins.Call? && !ins.Return? ==> t.sp == s.sp)
      && (!ins.Draw? ==> t.pixels == s.pixels)
      && (!ins.StoreRegisters? ==> t.memory == s.memory)
      && (!ins.SetIndex? ==> t.index == s.index)
      && (ins.IsSkip() || ins.IsTransfer() || ins.SetIndex? || ins.Return? ==> t.registers == s.registers)
  {
    if ins.Draw? || ins.StoreRegisters? || ins.LoadRegisters? {
      ExecuteUnchangedMemory(s, ins, r);
    } else {
      ExecuteUnchangedOther(s, ins, r);
    }
  }

  /** `ExecuteUnchanged` for Dxyn, Fx55 and Fx65. */
  lemma ExecuteUnchangedMemory(s: State, ins: Instr, r: u32)
    requires ins.Draw? || ins.StoreRegisters? || ins.LoadRegisters?
    requires Execute(s, ins, r).Ok?
    ensures var t := Execute(s, ins, r).value;
      && t == s.(pixels := t.pixels, memory := t.memory, registers := t.registers, pc := t.pc)
      && (!ins.Draw? ==> t.pixels == s.pixels)
      && (!ins.StoreRegisters? ==> t.memory == s.memory)
  {
    match ins {
      case Draw(x, y, n) =>
        DrawSpriteSpec(s, x, y, n);
      case StoreRegisters(x) =>
        StoreRegistersSpec(s, x);
      case LoadRegisters(x) =>
        LoadRegistersSpec(s, x);
    }
  }

  /** `ExecuteUnchanged` for every instruction that neither draws nor moves a register block. */
  lemma ExecuteUnchangedOther(s: State, ins: Instr, r: u32)
    requires !(ins.Draw? || ins.StoreRegisters? || ins.LoadRegisters?)
    requires Execute(s, ins, r).Ok?
    ensures var t := Execute(s, ins, r).value;
      && t.delayTimer == s.delayTimer
      && t.soundTimer == s.soundTimer
      && t.pixels == s.pixels
      && t.memory == s.memory
      && t.stack[0] == s.stack[0]
      && (!ins.Call? ==> t.stack == s.stack)
      && (!ins.Call? && !ins.Return? ==> t.sp == s.sp)
      && (!ins.SetIndex? ==> t.index == s.index)
      && (ins.IsSkip() || ins.IsTransfer() || ins.SetIndex? || ins.Return? ==> t.registers == s.registers)
  {
  }
}
