/**
  `load_font` and `load_program`: copying a glyph table and a program into
  memory. Both copy byte by byte from a fixed start address and panic on the
  first byte that falls outside memory.
 */
module Loader {
  import opened Bits
  import opened Machine

  /** The copy loop shared by both loaders: `memory[current] = byte; current += 1`. */
  function WriteBytes(mem: Memory, at: nat, bytes: seq<u8>): (r: Result<Memory>)
    decreases |bytes|
  {
    if bytes == [] then Ok(mem)
    else if at >= RAM_SIZE then Fault(IndexOutOfBounds)
    else WriteBytes(mem[at := bytes[0]], at + 1, bytes[1..])
  }

  /** A program's instruction words as the byte stream the loader writes: each word high byte first. */
  function BigEndianBytes(words: seq<u16>): (bytes: seq<u8>)
  {
    if words == [] then []
    else [ToBeBytes(words[0]).0, ToBeBytes(words[0]).1] + BigEndianBytes(words[1..])
  }

  /** `load_font`: the glyph bytes go to consecutive addresses from 0x50. */
  function LoadFont(s: State, font: seq<u8>): Result<State> {
    var mem :- WriteBytes(s.memory, FONT_START, font);
    Ok(s.(memory := mem))
  }

  /** `load_program`: the instruction words go big-endian to consecutive addresses from 0x200. */
  function LoadProgram(s: State, program: seq<u16>): Result<State> {
    var mem :- WriteBytes(s.memory, PROGRAM_START, BigEndianBytes(program));
    Ok(s.(memory := mem))
  }

  /**
    The copy succeeds exactly when the bytes fit, and then memory holds them
    at `at ..` and is unchanged everywhere else.
   */
  lemma {:induction false} WriteBytesSpec(mem: Memory, at: nat, bytes: seq<u8>)
    ensures WriteBytes(mem, at, bytes).Ok? <==> bytes == [] || at + |bytes| <= RAM_SIZE
    ensures WriteBytes(mem, at, bytes).Ok? ==>
      forall a | 0 <= a < RAM_SIZE ::
        WriteBytes(mem, at, bytes).value[a] == if at <= a < at + |bytes| then bytes[a - at] else mem[a]
    decreases |bytes|
  {
    if bytes != [] && at < RAM_SIZE {
      WriteBytesSpec(mem[at := bytes[0]], at + 1, bytes[1..]);
    }
  }

  /** Each word contributes its high byte then its low byte, in program order. */
  lemma {:induction false} BigEndianBytesSpec(words: seq<u16>)
    ensures |BigEndianBytes(words)| == 2 * |words|
    ensures forall k | 0 <= k < |words| ::
      && BigEndianBytes(words)[2 * k] == ToBeBytes(words[k]).0
      && BigEndianBytes(words)[2 * k + 1] == ToBeBytes(words[k]).1
  {
    if words != [] {
      BigEndianBytesSpec(words[1..]);
      var rest := BigEndianBytes(words[1..]);
      assert BigEndianBytes(words) == [ToBeBytes(words[0]).0, ToBeBytes(words[0]).1] + rest;
      forall k | 1 <= k < |words|
        ensures BigEndianBytes(words)[2 * k] == ToBeBytes(words[k]).0
        ensures BigEndianBytes(words)[2 * k + 1] == ToBeBytes(words[k]).1
      {
        assert words[1..][k - 1] == words[k];
        assert BigEndianBytes(words)[2 * k] == rest[2 * (k - 1)];
        assert BigEndianBytes(words)[2 * k + 1] == rest[2 * (k - 1) + 1];
      }
    }
  }

  /** `load_font` panics exactly when the table runs past the end of memory; it changes nothing but the bytes it copies. */
  lemma LoadFontSpec(s: State, font: seq<u8>)
    ensures LoadFont(s, font).Ok? <==> FONT_START + |font| <= RAM_SIZE
    ensures LoadFont(s, font).Ok? ==>
      && LoadFont(s, font).value == s.(memory := LoadFont(s, font).value.memory)
      && (forall k | 0 <= k < |font| :: LoadFont(s, font).value.memory[FONT_START + k] == font[k])
      && (forall a | 0 <= a < RAM_SIZE && !(FONT_START <= a < FONT_START + |font|) ::
            LoadFont(s, font).value.memory[a] == s.memory[a])
  {
    WriteBytesSpec(s.memory, FONT_START, font);
    if LoadFont(s, font).Ok? {
      forall k | 0 <= k < |font|
        ensures LoadFont(s, font).value.memory[FONT_START + k] == font[k]
      {
        assert FONT_START + k - FONT_START == k;
      }
    }
  }

  /**
    `load_program` panics exactly when the program runs past the end of
    memory. Otherwise word `k` sits big-endian at `0x200 + 2k`, and nothing
    outside `[0x200, 0x200 + 2 * |program|)` changes.
   */
  lemma LoadProgramSpec(s: State, program: seq<u16>)
    ensures LoadProgram(s, program).Ok? <==> PROGRAM_START + 2 * |program| <= RAM_SIZE
    ensures LoadProgram(s, program).Ok? ==>
      && LoadProgram(s, program).value == s.(memory := LoadProgram(s, program).value.memory)
      && (forall k | 0 <= k < |program| ::
            && LoadProgram(s, program).value.memory[PROGRAM_START + 2 * k] == ToBeBytes(program[k]).0
            && LoadProgram(s, program).value.memory[PROGRAM_START + 2 * k + 1] == ToBeBytes(program[k]).1)
      && (forall a | 0 <= a < RAM_SIZE && !(PROGRAM_START <= a < PROGRAM_START + 2 * |program|) ::
            LoadProgram(s, program).value.memory[a] == s.memory[a])
  {
    var bytes := BigEndianBytes(program);
    BigEndianBytesSpec(program);
    WriteBytesSpec(s.memory, PROGRAM_START, bytes);
    if LoadProgram(s, program).Ok? {
      var mem := LoadProgram(s, program).value.memory;
      forall k | 0 <= k < |program|
        ensures mem[PROGRAM_START + 2 * k] == ToBeBytes(program[k]).0
        ensures mem[PROGRAM_START + 2 * k + 1] == ToBeBytes(program[k]).1
      {
        assert PROGRAM_START + 2 * k - PROGRAM_START == 2 * k;
        assert PROGRAM_START + 2 * k + 1 - PROGRAM_START == 2 * k + 1;
      }
    }
  }
}
