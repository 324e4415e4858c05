/**
  Facts that hold across ticks: the stack invariant `Consistent` is kept by
  every tick that does not panic, and in a consistent state the only integer
  overflow a tick can hit is a RETURN on an empty stack.
 */
module Invariants {
  import opened Bits
  import opened Machine
  import opened Opcodes
  import opened Loader
  import opened Interpreter
  import opened ControlFlow

  /** The host loop: `tick` called once per random word in `rs`, stopping at the first panic. */
  function Run(s: State, rs: seq<u32>): Result<State>
    decreases |rs|
  {
    if rs == [] then Ok(s)
    else
      var t :- Step(s, rs[0]);
      Run(t, rs[1..])
  }

  /** A fetch that does not panic leaves room for the second byte, so the counter is below 4095. */
  lemma FetchBound(s: State)
    requires Current(s).Ok?
    ensures s.pc < RAM_SIZE - 1
  {
  }

  /** A tick that does not panic keeps the stack invariant. */
  lemma StepConsistent(s: State, r: u32)
    requires Consistent(s)
    requires Step(s, r).Ok?
    ensures Consistent(Step(s, r).value)
  {
    FetchBound(s);
    ExecuteConsistent(s, Current(s).value, r);
  }

  /** An instruction fetched from below the last byte of memory, run without a panic, keeps the stack invariant. */
  lemma ExecuteConsistent(s: State, ins: Instr, r: u32)
    requires Consistent(s) && s.pc < RAM_SIZE - 1
    requires Execute(s, ins, r).Ok?
    ensures Consistent(Execute(s, ins, r).value)
  {
    ExecuteUnchanged(s, ins, r);
    var t := Execute(s, ins, r).value;
    if ins.Call? {
      CallSpec(s, ins.addr, r);
      forall k | 0 <= k < STACK_SIZE
        ensures t.stack[k] < RAM_SIZE - 1
      {
        if k != t.sp {
          assert t.stack[k] == s.stack[k];
        }
      }
    } else if ins.Return? {
      assert t.sp == s.sp - 1 by {
        assert ReturnFrom(s).Ok?;
      }
    }
  }

  /**
    From a consistent state, a tick overflows an integer only when it is a
    RETURN with the stack pointer at 0: saved addresses and the fetched
    counter are too small for `+ 2` or `+ 4` to leave the u16 range, the
    12-bit jump target plus V0 stays in range, and the stack pointer is far
    from the top of usize.
   */
  lemma OnlyReturnOverflows(s: State, r: u32)
    requires Consistent(s)
    requires Step(s, r) == Fault(ArithmeticOverflow)
    ensures Current(s) == Ok(Return) && s.sp == 0
  {
    FetchBound(s);
    DispatchEncodable(Decode(Fetch(s).value));
    ExecuteOverflow(s, Current(s).value, r);
  }

  /** The instruction-level core of `OnlyReturnOverflows`. */
  lemma ExecuteOverflow(s: State, ins: Instr, r: u32)
    requires Consistent(s) && s.pc < RAM_SIZE - 1
    requires ins.JumpOffset? ==> ins.addr < 0x1000
    requires Execute(s, ins, r) == Fault(ArithmeticOverflow)
    ensures ins == Return && s.sp == 0
  {
    match ins {
      case Draw(x, y, n) =>
        Sprite.DrawSpriteOk(s, x, y, n);
      case StoreRegisters(x) =>
        RegisterBlock.StoreRegistersSpec(s, x);
      case LoadRegisters(x) =>
        RegisterBlock.LoadRegistersSpec(s, x);
      case _ =>
        ExecuteOverflowOther(s, ins, r);
    }
  }

  /** `ExecuteOverflow` for the instructions that touch neither memory nor the framebuffer. */
  lemma ExecuteOverflowOther(s: State, ins: Instr, r: u32)
    requires !(ins.Draw? || ins.StoreRegisters? || ins.LoadRegisters?)
    requires Consistent(s) && s.pc < RAM_SIZE - 1
    requires ins.JumpOffset? ==> ins.addr < 0x1000
    requires Execute(s, ins, r) == Fault(ArithmeticOverflow)
    ensures ins == Return && s.sp == 0
  {
  }

  /** The stack invariant holds after any sequence of ticks that does not panic. */
  lemma {:induction false} RunConsistent(s: State, rs: seq<u32>)
    requires Consistent(s)
    requires Run(s, rs).Ok?
    ensures Consistent(Run(s, rs).value)
    decreases |rs|
  {
    if rs != [] {
      StepConsistent(s, rs[0]);
      RunConsistent(Step(s, rs[0]).value, rs[1..]);
    }
  }

  /** No sequence of ticks changes either timer: no handler of this revision writes them. */
  lemma {:induction false} RunKeepsTimers(s: State, rs: seq<u32>)
    requires Run(s, rs).Ok?
    ensures Run(s, rs).value.delayTimer == s.delayTimer
    ensures Run(s, rs).value.soundTimer == s.soundTimer
    decreases |rs|
  {
    if rs != [] {
      ExecuteUnchanged(s, Current(s).value, rs[0]);
      RunKeepsTimers(Step(s, rs[0]).value, rs[1..]);
    }
  }

  /** A fresh machine with a font and a program loaded is consistent, so every run from it is. */
  lemma LoadedConsistent(font: seq<u8>, program: seq<u16>, rs: seq<u32>)
    requires LoadFont(New(), font).Ok?
    requires LoadProgram(LoadFont(New(), font).value, program).Ok?
    requires Run(LoadProgram(LoadFont(New(), font).value, program).value, rs).Ok?
    ensures Consistent(Run(LoadProgram(LoadFont(New(), font).value, program).value, rs).value)
  {
    ResetIsNew(New());
    LoadFontSpec(New(), font);
    var s1 := LoadFont(New(), font).value;
    LoadProgramSpec(s1, program);
    RunConsistent(LoadProgram(s1, program).value, rs);
  }
}
