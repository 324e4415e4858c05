/**
  The interpreter state of the CHIP-8 engine (`struct Chip8` in src/lib.rs)
  with its peripherals removed: memory, registers, index register, program
  counter, call stack, timers and the 64x32 framebuffer.
 */
module Machine {
  import opened Bits

  const RAM_SIZE: nat := 4096
  const NUM_REGISTERS: nat := 16
  const STACK_SIZE: nat := 16
  const FONT_START: nat := 0x50
  const PROGRAM_START: nat := 0x200
  const CHIP8_WIDTH: nat := 64
  const CHIP8_HEIGHT: nat := 32

  /** Register VF, the carry, borrow and collision flag. */
  const VF: Nibble := 0xF

  /** The two ways a Rust panic ends a tick: an index out of range, or an integer overflow in debug mode. */
  datatype Panic = IndexOutOfBounds | ArithmeticOverflow

  /** The outcome of an operation that can panic: every panic of the source is a `Fault`. */
  datatype Result<+T> = Ok(value: T) | Fault(panic: Panic) {
    predicate IsFailure() {
      Fault?
    }

    function PropagateFailure<U>(): Result<U>
      requires Fault?
    {
      Fault(panic)
    }

    function Extract(): T
      requires Ok?
    {
      value
    }
  }

  type Memory = m: seq<u8> | |m| == RAM_SIZE witness seq(RAM_SIZE, _ => 0)
  type Registers = r: seq<u8> | |r| == NUM_REGISTERS witness seq(NUM_REGISTERS, _ => 0)
  type Stack = st: seq<u16> | |st| == STACK_SIZE witness seq(STACK_SIZE, _ => 0)

  /** `pixels: [[bool; 32]; 64]`, indexed `[x][y]`. */
  type Frame = f: seq<seq<bool>> | IsFrame(f) witness Blank()

  predicate IsFrame(f: seq<seq<bool>>) {
    |f| == CHIP8_WIDTH && forall x | 0 <= x < |f| :: |f[x]| == CHIP8_HEIGHT
  }

  function Blank(): (f: seq<seq<bool>>)
    ensures IsFrame(f)
  {
    seq(CHIP8_WIDTH, _ => seq(CHIP8_HEIGHT, _ => false))
  }

  datatype State = State(
    memory: Memory,
    stack: Stack,
    registers: Registers,
    index: u16,
    pc: u16,
    sp: usize,
    delayTimer: u8,
    soundTimer: u8,
    pixels: Frame)

  /** `Chip8::new`: everything zero except the program counter, which starts at the program base. */
  function New(): State {
    State(
      memory := seq(RAM_SIZE, _ => 0),
      stack := seq(STACK_SIZE, _ => 0),
      registers := seq(NUM_REGISTERS, _ => 0),
      index := 0,
      pc := PROGRAM_START,
      sp := 0,
      delayTimer := 0,
      soundTimer := 0,
      pixels := Blank())
  }

  /**
    `Chip8::reset`: reinitialises every field `new` initialises. The fields it
    keeps (display, keypad, random source, scale, padding, debug flag) are not
    part of this state, so the result does not depend on `s`.
   */
  function Reset(s: State): State {
    State(
      memory := seq(RAM_SIZE, _ => 0),
      stack := seq(STACK_SIZE, _ => 0),
      registers := seq(NUM_REGISTERS, _ => 0),
      index := 0,
      pc := PROGRAM_START,
      sp := 0,
      delayTimer := 0,
      soundTimer := 0,
      pixels := Blank())
  }

  /**
    The facts every state reachable from `New` keeps: the stack pointer names
    a slot, slot 0 is never written, and every saved return address is one
    from which an instruction was fetched.
   */
  ghost predicate Consistent(s: State) {
    && s.sp < STACK_SIZE
    && s.stack[0] == 0
    && forall k | 0 <= k < STACK_SIZE :: s.stack[k] < RAM_SIZE - 1
  }

  /**
    Construction and reset give the same state, whatever the state before the
    reset: every field zero except the counter at the program base, a dark
    framebuffer, and the stack invariant holding.
   */
  lemma ResetIsNew(s: State)
    ensures Reset(s) == New()
    ensures Consistent(New())
    ensures New().pc == PROGRAM_START && New().sp == 0
    ensures New().index == 0
    ensures New().delayTimer == 0 && New().soundTimer == 0
    ensures forall a | 0 <= a < RAM_SIZE :: New().memory[a] == 0
    ensures forall k | 0 <= k < NUM_REGISTERS :: New().registers[k] == 0
    ensures forall k | 0 <= k < STACK_SIZE :: New().stack[k] == 0
    ensures forall x, y | 0 <= x < CHIP8_WIDTH && 0 <= y < CHIP8_HEIGHT :: !New().pixels[x][y]
  {
  }
}
