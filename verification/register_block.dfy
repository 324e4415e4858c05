/**
  The register-block transfers Fx55 (`_fx55`) and Fx65 (`_fx65`): registers
  `V0..V(x-1)` are copied to or from memory at the index register. The loop
  runs over `0..x`, so register `Vx` itself is not copied.
 */
module RegisterBlock {
  import opened Bits
  import opened Machine

  /** The store loop from iteration `i` on: `memory[index + k] = V[k]` for `i <= k < x`. */
  function StoreFrom(mem: Memory, regs: Registers, index: u16, i: nat, x: Nibble): Result<Memory>
    requires i <= x
    decreases x - i
  {
    if i == x then Ok(mem)
    else if index + i >= RAM_SIZE then Fault(IndexOutOfBounds)
    else StoreFrom(mem[index + i := regs[i]], regs, index, i + 1, x)
  }

  /** The load loop from iteration `i` on: `V[k] = memory[index + k]` for `i <= k < x`. */
  function LoadFrom(regs: Registers, mem: Memory, index: u16, i: nat, x: Nibble): Result<Registers>
    requires i <= x
    decreases x - i
  {
    if i == x then Ok(regs)
    else if index + i >= RAM_SIZE then Fault(IndexOutOfBounds)
    else LoadFrom(regs[i := mem[index + i]], mem, index, i + 1, x)
  }

  /** `_fx55`: stores `V0..V(x-1)` at `I..I+x-1`. */
  function StoreRegisters(s: State, x: Nibble): Result<State> {
    var m :- StoreFrom(s.memory, s.registers, s.index, 0, x);
    Ok(s.(memory := m))
  }

  /** `_fx65`: loads `V0..V(x-1)` from `I..I+x-1`. */
  function LoadRegisters(s: State, x: Nibble): Result<State> {
    var r :- LoadFrom(s.registers, s.memory, s.index, 0, x);
    Ok(s.(registers := r))
  }

  /** The block `I..I+x-1` lies in memory (an empty block always does). */
  predicate BlockFits(index: u16, x: Nibble) {
    x == 0 || index + x <= RAM_SIZE
  }

  /**
    The store loop panics exactly when one of its addresses is out of range,
    and otherwise writes register `k` at `index + k` for `i <= k < x` and
    leaves every other byte alone.
   */
  lemma {:induction false} StoreFromSpec(mem: Memory, regs: Registers, index: u16, i: nat, x: Nibble)
    requires i <= x
    ensures StoreFrom(mem, regs, index, i, x).Ok? <==> (i == x || index + x <= RAM_SIZE)
    ensures StoreFrom(mem, regs, index, i, x).Fault? ==> StoreFrom(mem, regs, index, i, x).panic == IndexOutOfBounds
    ensures StoreFrom(mem, regs, index, i, x).Ok? ==>
      forall a | 0 <= a < RAM_SIZE ::
        StoreFrom(mem, regs, index, i, x).value[a] == if index + i <= a < index + x then regs[a - index] else mem[a]
    decreases x - i
  {
    if i < x && index + i < RAM_SIZE {
      StoreFromSpec(mem[index + i := regs[i]], regs, index, i + 1, x);
    }
  }

  /**
    The load loop panics exactly when one of its addresses is out of range,
    and otherwise sets register `k` to the byte at `index + k` for `i <= k < x`
    and leaves every other register alone.
   */
  lemma {:induction false} LoadFromSpec(regs: Registers, mem: Memory, index: u16, i: nat, x: Nibble)
    requires i <= x
    ensures LoadFrom(regs, mem, index, i, x).Ok? <==> (i == x || index + x <= RAM_SIZE)
    ensures LoadFrom(regs, mem, index, i, x).Fault? ==> LoadFrom(regs, mem, index, i, x).panic == IndexOutOfBounds
    ensures LoadFrom(regs, mem, index, i, x).Ok? ==>
      forall k | 0 <= k < NUM_REGISTERS ::
        LoadFrom(regs, mem, index, i, x).value[k] == if i <= k < x then mem[index + k] else regs[k]
    decreases x - i
  {
    if i < x && index + i < RAM_SIZE {
      LoadFromSpec(regs[i := mem[index + i]], mem, index, i + 1, x);
    }
  }

  /** Fx55 succeeds iff the block fits, writes exactly `V0..V(x-1)` into it, and changes nothing but memory. */
  lemma StoreRegistersSpec(s: State, x: Nibble)
    ensures StoreRegisters(s, x).Ok? <==> BlockFits(s.index, x)
    ensures StoreRegisters(s, x).Fault? ==> StoreRegisters(s, x).panic == IndexOutOfBounds
    ensures StoreRegisters(s, x).Ok? ==>
      var t := StoreRegisters(s, x).value;
      && (forall k | 0 <= k < x :: t.memory[s.index + k] == s.registers[k])
      && (forall a | 0 <= a < RAM_SIZE && !(s.index <= a < s.index + x) :: t.memory[a] == s.memory[a])
      && t == s.(memory := t.memory)
  {
    StoreFromSpec(s.memory, s.registers, s.index, 0, x);
    if StoreRegisters(s, x).Ok? {
      var t := StoreRegisters(s, x).value;
      forall k | 0 <= k < x
        ensures t.memory[s.index + k] == s.registers[k]
      {
        assert s.index + k < RAM_SIZE;
      }
    }
  }

  /** Fx65 succeeds iff the block fits, loads exactly `V0..V(x-1)` from it, and changes nothing but registers. */
  lemma LoadRegistersSpec(s: State, x: Nibble)
    ensures LoadRegisters(s, x).Ok? <==> BlockFits(s.index, x)
    ensures LoadRegisters(s, x).Fault? ==> LoadRegisters(s, x).panic == IndexOutOfBounds
    ensures LoadRegisters(s, x).Ok? ==>
      var t := LoadRegisters(s, x).value;
      && (forall k | 0 <= k < x :: t.registers[k] == s.memory[s.index + k])
      && (forall k | x <= k < NUM_REGISTERS :: t.registers[k] == s.registers[k])
      && t == s.(registers := t.registers)
  {
    LoadFromSpec(s.registers, s.memory, s.index, 0, x);
  }

  /**
    Storing a block and loading it back reproduces the stored registers, even
    when the register file `R` has been replaced in between: V0..V(x-1) come
    back from memory and the rest of `R` is kept. Loading straight over the
    registers just stored changes nothing.
   */
  lemma StoreThenLoad(s: State, x: Nibble, R: Registers)
    requires StoreRegisters(s, x).Ok?
    ensures var s1 := StoreRegisters(s, x).value;
      && LoadRegisters(s1.(registers := R), x).Ok?
      && (forall k | 0 <= k < NUM_REGISTERS ::
            LoadRegisters(s1.(registers := R), x).value.registers[k] == if k < x then s.registers[k] else R[k])
    ensures var s1 := StoreRegisters(s, x).value;
      && LoadRegisters(s1, x).Ok?
      && LoadRegisters(s1, x).value == s1
  {
    StoreRegistersSpec(s, x);
    var s1 := StoreRegisters(s, x).value;
    LoadRegistersSpec(s1.(registers := R), x);
    forall k | 0 <= k < x
      ensures LoadRegisters(s1.(registers := R), x).value.registers[k] == s.registers[k]
    {
      assert s1.memory[s1.index + k] == s.registers[k];
    }
    LoadRegistersSpec(s1, x);
    var r := LoadRegisters(s1, x).value.registers;
    assert r == s1.registers by {
      forall k | 0 <= k < NUM_REGISTERS
        ensures r[k] == s1.registers[k]
      {
        if k < x {
          assert r[k] == s1.memory[s1.index + k];
        }
      }
    }
  }

  /** With `x = 0` neither transfer copies anything. */
  lemma EmptyBlock(s: State)
    ensures StoreRegisters(s, 0) == Ok(s)
    ensures LoadRegisters(s, 0) == Ok(s)
  {
  }
}
