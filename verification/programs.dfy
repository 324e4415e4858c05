/**
  Loaded programs: what a tick fetches from a program written by
  `load_program`, and the behaviour of the short programs in the project's
  unit tests (tests/unit_tests.rs), replayed on the model from any machine
  whose memory holds the test's bytes.
 */
module Programs {
  import opened Bits
  import opened Machine
  import opened Opcodes
  import opened Loader
  import opened RegisterBlock
  import opened Interpreter
  import Alu
  import ControlFlow

  /**
    Load, fetch and decode round trip: with the counter at word `k` of a
    loaded program, the fetch returns that word's big-endian bytes and the
    decoded nibbles recombine into the word.
   */
  lemma FetchLoaded(s: State, p: seq<u16>, k: nat, t: State)
    requires LoadProgram(s, p).Ok? && k < |p|
    requires t.memory == LoadProgram(s, p).value.memory && t.pc == PROGRAM_START + 2 * k
    ensures Fetch(t) == Ok(Opcode(ToBeBytes(p[k]).0, ToBeBytes(p[k]).1))
    ensures Word(Decode(Fetch(t).value)) == p[k]
  {
    LoadProgramSpec(s, p);
    WordOfDecode(p[k]);
  }

  /** A loaded word written as the encoding of an instruction is dispatched to exactly that instruction. */
  lemma RunsAssembled(s: State, p: seq<u16>, k: nat, t: State, ins: Instr)
    requires LoadProgram(s, p).Ok? && k < |p|
    requires t.memory == LoadProgram(s, p).value.memory && t.pc == PROGRAM_START + 2 * k
    requires Encodable(ins) && p[k] == Word(Assemble(ins))
    ensures Current(t) == Ok(ins)
    ensures forall r :: Step(t, r) == Execute(t, ins, r)
  {
    FetchLoaded(s, p, k, t);
    DecodeWord(Assemble(ins));
    DispatchAssembled(ins);
  }

  /** A tick whose counter points at the two bytes of an instruction's encoding runs that instruction. */
  lemma RunsAt(t: State, ins: Instr)
    requires Encodable(ins)
    requires t.pc + 1 < RAM_SIZE
    requires t.memory[t.pc] == ToBeBytes(Word(Assemble(ins))).0
    requires t.memory[t.pc + 1] == ToBeBytes(Word(Assemble(ins))).1
    ensures Current(t) == Ok(ins)
    ensures forall r :: Step(t, r) == Execute(t, ins, r)
  {
    CurrentAt(t, ins);
    forall r
      ensures Step(t, r) == Execute(t, ins, r)
    {
      StepRuns(t, ins, r);
    }
  }

  /** The fetch and decode half of `RunsAt`. */
  lemma CurrentAt(t: State, ins: Instr)
    requires Encodable(ins)
    requires t.pc + 1 < RAM_SIZE
    requires t.memory[t.pc] == ToBeBytes(Word(Assemble(ins))).0
    requires t.memory[t.pc + 1] == ToBeBytes(Word(Assemble(ins))).1
    ensures Current(t) == Ok(ins)
  {
    DecodeWord(Assemble(ins));
    DispatchAssembled(ins);
  }

  /** A tick runs the instruction at the counter. */
  lemma StepRuns(t: State, ins: Instr, r: u32)
    requires Current(t) == Ok(ins)
    ensures Step(t, r) == Execute(t, ins, r)
  {
  }

  /** The 1nnn test: a program `1202 1FFF` at 0x200 moves the counter to 0x202, then to 0xFFF. */
  lemma JumpTest(t: State, r1: u32, r2: u32)
    requires t.pc == 0x200
    requires t.memory[0x200] == 0x12 && t.memory[0x201] == 0x02
    requires t.memory[0x202] == 0x1F && t.memory[0x203] == 0xFF
    ensures Step(t, r1).Ok? && Step(t, r1).value.pc == 0x202
    ensures Step(Step(t, r1).value, r2).Ok? && Step(Step(t, r1).value, r2).value.pc == 0xFFF
  {
    assert ToBeBytes(Word(Assemble(Jump(0x202)))) == (0x12, 0x02);
    assert ToBeBytes(Word(Assemble(Jump(0xFFF)))) == (0x1F, 0xFF);
    RunsAt(t, Jump(0x202));
    var t1 := Step(t, r1).value;
    assert t1 == t.(pc := 0x202);
    RunsAt(t1, Jump(0xFFF));
  }

  /** The 3xnn tests: with V0 = 0xFF, `30FF` skips to 0x204 and `3000` only advances to 0x202. */
  lemma SkipTests(t: State, nn: u8, r: u32)
    requires nn == 0xFF || nn == 0x00
    requires t.pc == 0x200 && t.registers[0] == 0xFF
    requires t.memory[0x200] == 0x30 && t.memory[0x201] == nn
    ensures Step(t, r).Ok?
    ensures Step(t, r).value.pc == if nn == 0xFF then 0x204 else 0x202
  {
    assert ToBeBytes(Word(Assemble(SkipIfEqImm(0, nn)))) == (0x30, nn);
    RunsAt(t, SkipIfEqImm(0, nn));
  }

  /** The 4xnn tests: with V0 = 0xFF, `4000` skips to 0x204 and `40FF` only advances to 0x202. */
  lemma SkipIfNeTests(t: State, nn: u8, r: u32)
    requires nn == 0x00 || nn == 0xFF
    requires t.pc == 0x200 && t.registers[0] == 0xFF
    requires t.memory[0x200] == 0x40 && t.memory[0x201] == nn
    ensures Step(t, r).Ok?
    ensures Step(t, r).value.pc == if nn == 0x00 then 0x204 else 0x202
  {
    assert ToBeBytes(Word(Assemble(SkipIfNeImm(0, nn)))) == (0x40, nn);
    RunsAt(t, SkipIfNeImm(0, nn));
  }

  /** The 5xy0 tests: `5010` with V1 = 0xFF skips to 0x204 when V0 = 0xFF and only advances to 0x202 when V0 = 0. */
  lemma SkipIfEqRegTests(t: State, v0: u8, r: u32)
    requires v0 == 0xFF || v0 == 0x00
    requires t.pc == 0x200 && t.registers[0] == v0 && t.registers[1] == 0xFF
    requires t.memory[0x200] == 0x50 && t.memory[0x201] == 0x10
    ensures Step(t, r).Ok?
    ensures Step(t, r).value.pc == if v0 == 0xFF then 0x204 else 0x202
  {
    assert ToBeBytes(Word(Assemble(SkipIfEqReg(0, 1)))) == (0x50, 0x10);
    RunsAt(t, SkipIfEqReg(0, 1));
  }

  /** The 6xnn test: `600A` sets V0 to 0x0A and advances to 0x202. */
  lemma SetImmTest(t: State, r: u32)
    requires t.pc == 0x200
    requires t.memory[0x200] == 0x60 && t.memory[0x201] == 0x0A
    ensures Step(t, r).Ok?
    ensures Step(t, r).value.registers[0] == 0x0A && Step(t, r).value.pc == 0x202
  {
    assert ToBeBytes(Word(Assemble(SetImm(0, 0x0A)))) == (0x60, 0x0A);
    RunsAt(t, SetImm(0, 0x0A));
    Alu.SetSpec(t, 0, 0, 0x0A, r);
  }

  /** The 7xnn test: `7009` with V0 = 1 sets V0 to 0x0A and advances to 0x202. */
  lemma AddImmTest(t: State, r: u32)
    requires t.pc == 0x200 && t.registers[0] == 0x01
    requires t.memory[0x200] == 0x70 && t.memory[0x201] == 0x09
    ensures Step(t, r).Ok?
    ensures Step(t, r).value.registers[0] == 0x0A && Step(t, r).value.pc == 0x202
  {
    assert ToBeBytes(Word(Assemble(AddImm(0, 0x09)))) == (0x70, 0x09);
    RunsAt(t, AddImm(0, 0x09));
    Alu.AddImmSpec(t, 0, 0x09, r);
  }

  /** The 7xnn overflow test: `7001` with V0 = 0xFF wraps V0 to 0 and advances to 0x202. */
  lemma AddImmWrapTest(t: State, r: u32)
    requires t.pc == 0x200 && t.registers[0] == 0xFF
    requires t.memory[0x200] == 0x70 && t.memory[0x201] == 0x01
    ensures Step(t, r).Ok?
    ensures Step(t, r).value.registers[0] == 0 && Step(t, r).value.pc == 0x202
  {
    assert ToBeBytes(Word(Assemble(AddImm(0, 0x01)))) == (0x70, 0x01);
    RunsAt(t, AddImm(0, 0x01));
    Alu.AddImmSpec(t, 0, 0x01, r);
  }

  /**
    The Fx55 test, `FF55` with I = 0x203 and every register 0xFF: V0..VE
    land at 0x203..0x211, but VF is not stored, so 0x212 keeps its old
    value (0 in a fresh machine) where the test expects 0xFF.
   */
  lemma StoreTest(t: State, r: u32)
    requires t.pc == 0x200 && t.index == 0x203
    requires forall k | 0 <= k < NUM_REGISTERS :: t.registers[k] == 0xFF
    requires t.memory[0x200] == 0xFF && t.memory[0x201] == 0x55
    ensures Step(t, r).Ok?
    ensures Step(t, r).value.pc == 0x202
    ensures forall a | 0x203 <= a < 0x212 :: Step(t, r).value.memory[a] == 0xFF
    ensures Step(t, r).value.memory[0x212] == t.memory[0x212]
  {
    assert ToBeBytes(Word(Assemble(StoreRegisters(0xF)))) == (0xFF, 0x55);
    RunsAt(t, StoreRegisters(0xF));
    ControlFlow.ExecuteBlock(t, StoreRegisters(0xF), r);
    StoredRun(t, 0xF, 0xFF);
    StoreRegistersSpec(t, 0xF);
  }

  /** Fx55 over registers that all hold `v` fills the block at the index register with `v`. */
  lemma StoredRun(s: State, x: Nibble, v: u8)
    requires BlockFits(s.index, x)
    requires forall k | 0 <= k < x :: s.registers[k] == v
    ensures RegisterBlock.StoreRegisters(s, x).Ok?
    ensures forall a | s.index <= a < s.index + x :: RegisterBlock.StoreRegisters(s, x).value.memory[a] == v
  {
    StoreRegistersSpec(s, x);
    var u := RegisterBlock.StoreRegisters(s, x).value;
    forall a | s.index <= a < s.index + x
      ensures u.memory[a] == v
    {
      assert u.memory[s.index + (a - s.index)] == s.registers[a - s.index];
    }
  }

  /**
    The Fx65 test, `FF65` with I = 0x203 over a run of 0xFF bytes: V0..VE
    are loaded with 0xFF, but VF is not, so it keeps its old value (0 in a
    fresh machine) where the test expects 0xFF.
   */
  lemma LoadTest(t: State, r: u32)
    requires t.pc == 0x200 && t.index == 0x203
    requires t.memory[0x200] == 0xFF && t.memory[0x201] == 0x65
    requires forall a | 0x203 <= a < 0x212 :: t.memory[a] == 0xFF
    ensures Step(t, r).Ok?
    ensures Step(t, r).value.pc == 0x202
    ensures forall k | 0 <= k < 0xF :: Step(t, r).value.registers[k] == 0xFF
    ensures Step(t, r).value.registers[0xF] == t.registers[0xF]
  {
    assert ToBeBytes(Word(Assemble(LoadRegisters(0xF)))) == (0xFF, 0x65);
    RunsAt(t, LoadRegisters(0xF));
    ControlFlow.ExecuteBlock(t, LoadRegisters(0xF), r);
    LoadedRun(t, 0xF, 0xFF);
  }

  /** Fx65 over a block of memory that holds `v` throughout sets V0 to V(x-1) to `v` and keeps the rest. */
  lemma LoadedRun(s: State, x: Nibble, v: u8)
    requires BlockFits(s.index, x)
    requires forall a | s.index <= a < s.index + x :: s.memory[a] == v
    ensures RegisterBlock.LoadRegisters(s, x).Ok?
    ensures forall k | 0 <= k < x :: RegisterBlock.LoadRegisters(s, x).value.registers[k] == v
    ensures forall k | x <= k < NUM_REGISTERS :: RegisterBlock.LoadRegisters(s, x).value.registers[k] == s.registers[k]
  {
    LoadRegistersSpec(s, x);
  }
}
