/**
  The register instructions 6xnn, 7xnn, 8xy0-8xy7 and Cxnn, stated in terms
  of arithmetic on the byte values and of their binary digits.
 */
module Alu {
  import opened Bits
  import opened Machine
  import opened Opcodes
  import opened Interpreter

  /** Every register other than those in `written` keeps its value. */
  predicate OthersKept(s: State, t: State, written: set<int>) {
    forall k | 0 <= k < NUM_REGISTERS && k !in written :: t.registers[k] == s.registers[k]
  }

  /** What a non-panicking register instruction leaves alone: all but the registers and the counter. */
  predicate OnlyRegistersAndPc(s: State, t: State) {
    t == s.(registers := t.registers, pc := t.pc)
  }

  /** 6xnn and 8xy0 copy a value into Vx; nothing else but the counter changes. */
  lemma SetSpec(s: State, x: Nibble, y: Nibble, nn: u8, r: u32)
    requires s.pc + 2 <= 0xFFFF
    ensures Execute(s, SetImm(x, nn), r).Ok? && Execute(s, Move(x, y), r).Ok?
    ensures var t := Execute(s, SetImm(x, nn), r).value;
      t.registers[x] == nn && OthersKept(s, t, {x}) && t.pc == s.pc + 2 && OnlyRegistersAndPc(s, t)
    ensures var t := Execute(s, Move(x, y), r).value;
      t.registers[x] == s.registers[y] && OthersKept(s, t, {x}) && t.pc == s.pc + 2 && OnlyRegistersAndPc(s, t)
  {
  }

  /** 7xnn adds modulo 256 and, unlike 8xy4, leaves VF alone unless VF is the target. */
  lemma AddImmSpec(s: State, x: Nibble, nn: u8, r: u32)
    requires s.pc + 2 <= 0xFFFF
    ensures Execute(s, AddImm(x, nn), r).Ok?
    ensures var t := Execute(s, AddImm(x, nn), r).value;
      && t.registers[x] == (s.registers[x] as int + nn) % 256
      && OthersKept(s, t, {x})
      && (x != VF ==> t.registers[VF] == s.registers[VF])
      && t.pc == s.pc + 2
      && OnlyRegistersAndPc(s, t)
  {
  }

  /** 8xy4: Vx receives the sum modulo 256, then VF is 1 iff the sum exceeded 255. */
  lemma AddRegSpec(s: State, x: Nibble, y: Nibble, r: u32)
    requires s.pc + 2 <= 0xFFFF
    ensures Execute(s, AddReg(x, y), r).Ok?
    ensures var t := Execute(s, AddReg(x, y), r).value;
      var sum := s.registers[x] as int + s.registers[y];
      && (t.registers[VF] == 1 <==> sum > 255)
      && (t.registers[VF] == 0 <==> sum <= 255)
      && (x != VF ==> t.registers[x] == sum % 256)
      && OthersKept(s, t, {x, VF})
      && t.pc == s.pc + 2
      && OnlyRegistersAndPc(s, t)
  {
  }

  /** 8xy5: Vx receives `Vx - Vy` modulo 256, then VF is 1 iff the subtraction borrowed (`Vx < Vy`). */
  lemma SubRegSpec(s: State, x: Nibble, y: Nibble, r: u32)
    requires s.pc + 2 <= 0xFFFF
    ensures Execute(s, SubReg(x, y), r).Ok?
    ensures var t := Execute(s, SubReg(x, y), r).value;
      && (t.registers[VF] == 1 <==> s.registers[x] < s.registers[y])
      && (t.registers[VF] == 0 <==> s.registers[x] >= s.registers[y])
      && (x != VF ==> t.registers[x] == (s.registers[x] as int - s.registers[y]) % 256)
      && OthersKept(s, t, {x, VF})
      && t.pc == s.pc + 2
      && OnlyRegistersAndPc(s, t)
  {
  }

  /** 8xy7: the difference `Vy - Vx` goes to Vy, not Vx, then VF is 1 iff `Vy < Vx`. */
  lemma SubReversedSpec(s: State, x: Nibble, y: Nibble, r: u32)
    requires s.pc + 2 <= 0xFFFF
    ensures Execute(s, SubReversed(x, y), r).Ok?
    ensures var t := Execute(s, SubReversed(x, y), r).value;
      && (t.registers[VF] == 1 <==> s.registers[y] < s.registers[x])
      && (t.registers[VF] == 0 <==> s.registers[y] >= s.registers[x])
      && (y != VF ==> t.registers[y] == (s.registers[y] as int - s.registers[x]) % 256)
      && OthersKept(s, t, {y, VF})
      && t.pc == s.pc + 2
      && OnlyRegistersAndPc(s, t)
  {
  }

  /** Binary digit `k` of Vx after an 8xy1, 8xy2 or 8xy3, from the digits of Vx and Vy before it. */
  predicate DigitsCombine(ins: Instr, a: u8, b: u8, c: u8)
    requires ins.Or? || ins.And? || ins.Xor?
  {
    forall k | 0 <= k < 8 ::
      if ins.Or? then Digit(c, k) == 1 <==> Digit(a, k) == 1 || Digit(b, k) == 1
      else if ins.And? then Digit(c, k) == 1 <==> Digit(a, k) == 1 && Digit(b, k) == 1
      else Digit(c, k) == 1 <==> (Digit(a, k) == 1) != (Digit(b, k) == 1)
  }

  /** 8xy1, 8xy2 and 8xy3 combine Vx and Vy digit by digit into Vx and change no flag. */
  lemma BitwiseSpec(s: State, ins: Instr, r: u32)
    requires ins.Or? || ins.And? || ins.Xor?
    requires s.pc + 2 <= 0xFFFF
    ensures Execute(s, ins, r).Ok?
    ensures var t := Execute(s, ins, r).value;
      && DigitsCombine(ins, s.registers[ins.x], s.registers[ins.y], t.registers[ins.x])
      && OthersKept(s, t, {ins.x})
      && t.pc == s.pc + 2
      && OnlyRegistersAndPc(s, t)
  {
    var a, b := s.registers[ins.x], s.registers[ins.y];
    var c := Execute(s, ins, r).value.registers[ins.x];
    forall k | 0 <= k < 8
      ensures if ins.Or? then Digit(c, k) == 1 <==> Digit(a, k) == 1 || Digit(b, k) == 1
        else if ins.And? then Digit(c, k) == 1 <==> Digit(a, k) == 1 && Digit(b, k) == 1
        else Digit(c, k) == 1 <==> (Digit(a, k) == 1) != (Digit(b, k) == 1)
    {
      if ins.Or? {
        DigitOr(a, b, 8, k);
      } else if ins.And? {
        DigitAnd(a, b, 8, k);
      } else {
        DigitXor(a, b, 8, k);
      }
    }
  }

  /**
    Cxnn: Vx becomes the top 4 bits of the random word masked by `nn`, so it
    is at most 15, has no binary digit outside `nn`, and is unchanged by
    masking with `nn` again; only Vx and the counter change.
   */
  lemma RandomSpec(s: State, x: Nibble, nn: u8, r: u32)
    requires s.pc + 2 <= 0xFFFF
    ensures Execute(s, Random(x, nn), r).Ok?
    ensures var t := Execute(s, Random(x, nn), r).value;
      && t.registers[x] <= 15
      && (forall k | 0 <= k < 8 :: Digit(t.registers[x], k) == 1 ==> Digit(nn, k) == 1)
      && And8(t.registers[x], nn) == t.registers[x]
      && t.registers[x] == And8(r / 0x1000_0000, nn)
      && OthersKept(s, t, {x})
      && t.pc == s.pc + 2
      && OnlyRegistersAndPc(s, t)
  {
    TopNibbleSpec(r);
    var v := And8(TopNibble(r), nn);
    forall k | 0 <= k < 8
      ensures Digit(v, k) == 1 ==> Digit(nn, k) == 1
    {
      DigitAnd(TopNibble(r), nn, 8, k);
    }
    AndIdempotent(TopNibble(r), nn, 8);
  }
}
