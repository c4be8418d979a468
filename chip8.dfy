/**
 * The CHIP-8 emulator wrapper (`Chip8`): a machine with 4 KiB of memory,
 * sixteen registers, a 64 by 32 display, a keypad and a call stack. ROMs
 * are loaded at address 0x200; a frame runs thirty instruction cycles and
 * then one timer tick. The instruction set itself belongs to the CPU and
 * is not modelled: a cycle and a tick are recorded as steps.
 */
module Chip8 {
  newtype Byte = x: int | 0 <= x < 256

  const MEMORY_SIZE: nat := 4096
  const ROM_START: nat := 0x200
  const DISPLAY_SIZE: nat := 2048
  const REGISTER_COUNT: nat := 16
  const KEY_COUNT: nat := 16
  const STACK_SIZE: nat := 16
  /** The length of the random generator's state, `CMWC_CYCLE` in the CPU's crate. */
  const CMWC_CYCLE: nat := 4096
  const CYCLES_PER_FRAME: nat := 30

  datatype Step = ExecuteCycle | DecrementTimers

  /** Memory after loading `rom`: the ROM's bytes from 0x200 on, the rest as before. */
  function Loaded(memory: seq<Byte>, rom: seq<Byte>): (m: seq<Byte>)
    requires |memory| == MEMORY_SIZE && ROM_START + |rom| <= MEMORY_SIZE
    ensures |m| == MEMORY_SIZE
  {
    memory[..ROM_START] + rom + memory[ROM_START + |rom|..]
  }

  /** Every ROM byte lands at 0x200 plus its index, and every other address keeps its byte. */
  lemma LoadedPlacesRom(memory: seq<Byte>, rom: seq<Byte>)
    requires |memory| == MEMORY_SIZE && ROM_START + |rom| <= MEMORY_SIZE
    ensures forall i :: 0 <= i < |rom| ==> Loaded(memory, rom)[ROM_START + i] == rom[i]
    ensures forall a :: 0 <= a < MEMORY_SIZE && !(ROM_START <= a < ROM_START + |rom|) ==> Loaded(memory, rom)[a] == memory[a]
  {
    var m := Loaded(memory, rom);
    forall i | 0 <= i < |rom| ensures m[ROM_START + i] == rom[i] {
      assert m[ROM_START + i] == (memory[..ROM_START] + rom)[ROM_START + i];
    }
  }

  /** Loading the same ROM twice is loading it once. */
  lemma LoadIdempotent(memory: seq<Byte>, rom: seq<Byte>)
    requires |memory| == MEMORY_SIZE && ROM_START + |rom| <= MEMORY_SIZE
    ensures Loaded(Loaded(memory, rom), rom) == Loaded(memory, rom)
  {
    var m := Loaded(memory, rom);
    LoadedPlacesRom(memory, rom);
    LoadedPlacesRom(m, rom);
    assert forall a :: 0 <= a < MEMORY_SIZE ==> Loaded(m, rom)[a] == m[a];
  }

  /** The steps of `n` frames. */
  function Frames(n: nat): (s: seq<Step>)
    ensures |s| == n * (CYCLES_PER_FRAME + 1)
  {
    if n == 0 then [] else Frames(n - 1) + seq(CYCLES_PER_FRAME, _ => ExecuteCycle) + [DecrementTimers]
  }

  /** In any run of whole frames, the timers tick once for every thirty cycles. */
  lemma {:induction false} FramesTickRate(n: nat)
    ensures forall k :: 0 <= k < |Frames(n)| ==> (Frames(n)[k] == DecrementTimers <==> k % (CYCLES_PER_FRAME + 1) == CYCLES_PER_FRAME)
  {
    if n > 0 {
      FramesTickRate(n - 1);
      var prev := Frames(n - 1);
      var frame := seq(CYCLES_PER_FRAME, _ => ExecuteCycle) + [DecrementTimers];
      assert Frames(n) == prev + frame;
      forall k | 0 <= k < |Frames(n)|
        ensures Frames(n)[k] == DecrementTimers <==> k % (CYCLES_PER_FRAME + 1) == CYCLES_PER_FRAME
      {
        if k >= |prev| {
          var j := k - |prev|;
          assert Frames(n)[k] == frame[j];
          assert k == (n - 1) * (CYCLES_PER_FRAME + 1) + j;
          FramePosition(n - 1, j);
        } else {
          assert Frames(n)[k] == prev[k];
        }
      }
    }
  }

  lemma FramePosition(q: nat, j: nat)
    requires j < CYCLES_PER_FRAME + 1
    ensures (q * (CYCLES_PER_FRAME + 1) + j) % (CYCLES_PER_FRAME + 1) == j
  {
  }

  class Chip8 {
    var i: nat
    var pc: nat
    var dt: nat
    var memory: array<Byte>
    var v: array<Byte>
    var display: array<Byte>
    var keys: array<bool>
    var stack: array<nat>
    var sp: nat
    var randQ: array<nat>
    var randC: nat
    var randI: nat
    /** The cycles and timer ticks performed so far, in order. */
    var steps: seq<Step>

    predicate Valid()
      reads this
    {
      memory.Length == MEMORY_SIZE && v.Length == REGISTER_COUNT && display.Length == DISPLAY_SIZE &&
      keys.Length == KEY_COUNT && stack.Length == STACK_SIZE && randQ.Length == CMWC_CYCLE &&
      memory != v && memory != display && v != display
    }

    /** `Chip8::new`: everything zeroed, no key down. */
    constructor ()
      ensures Valid() && fresh(memory) && fresh(v) && fresh(display) && fresh(keys) && fresh(stack) && fresh(randQ)
      ensures i == 0 && pc == 0 && dt == 0 && sp == 0 && randC == 0 && randI == 0 && steps == []
      ensures forall a :: 0 <= a < MEMORY_SIZE ==> memory[a] == 0
      ensures forall r :: 0 <= r < REGISTER_COUNT ==> v[r] == 0
      ensures forall p :: 0 <= p < DISPLAY_SIZE ==> display[p] == 0
      ensures forall k :: 0 <= k < KEY_COUNT ==> !keys[k]
      ensures forall d :: 0 <= d < STACK_SIZE ==> stack[d] == 0
      ensures forall q :: 0 <= q < CMWC_CYCLE ==> randQ[q] == 0
    {
      i, pc, dt, sp := 0, 0, 0, 0;
      memory := new Byte[MEMORY_SIZE](_ => 0);
      v := new Byte[REGISTER_COUNT](_ => 0);
      display := new Byte[DISPLAY_SIZE](_ => 0);
      keys := new bool[KEY_COUNT](_ => false);
      stack := new nat[STACK_SIZE](_ => 0);
      randQ := new nat[CMWC_CYCLE](_ => 0);
      randC, randI := 0, 0;
      steps := [];
    }

    /** `load_rom`; a ROM reaching past the end of memory makes the indexing panic. */
    method LoadRom(rom: seq<Byte>)
      requires Valid() && ROM_START + |rom| <= MEMORY_SIZE
      modifies memory
      ensures Valid()
      ensures memory[..] == Loaded(old(memory[..]), rom)
    {
      var offset := 0x200;
      for index := 0 to |rom|
        invariant memory[..] == Loaded(old(memory[..]), rom[..index])[..ROM_START + index] + old(memory[..])[ROM_START + index..]
      {
        memory[offset + index] := rom[index];
        assert rom[..index + 1] == rom[..index] + [rom[index]];
      }
      assert rom[..|rom|] == rom;
    }

    /** `execute_cycle`: one instruction of the CPU, whose effect on the registers, memory, display, stack and generator is not modelled. */
    method ExecuteCycle()
      modifies this, memory, v, display, keys, stack, randQ
      ensures steps == old(steps) + [Step.ExecuteCycle]
      ensures memory == old(memory) && v == old(v) && display == old(display) && keys == old(keys) && stack == old(stack) && randQ == old(randQ)
    {
      steps := steps + [Step.ExecuteCycle];
    }

    /** `decrement_timers`: one timer tick of the CPU, whose effect on the registers, memory, display, stack and generator is not modelled. */
    method DecrementTimers()
      modifies this, memory, v, display, keys, stack, randQ
      ensures steps == old(steps) + [Step.DecrementTimers]
      ensures memory == old(memory) && v == old(v) && display == old(display) && keys == old(keys) && stack == old(stack) && randQ == old(randQ)
    {
      steps := steps + [Step.DecrementTimers];
    }

    /** `run`: one frame, thirty cycles and then one timer tick. */
    method Run()
      requires Valid()
      modifies this, memory, v, display, keys, stack, randQ
      ensures Valid()
      ensures memory == old(memory) && v == old(v) && display == old(display) && keys == old(keys) && stack == old(stack) && randQ == old(randQ)
      ensures steps == old(steps) + Frames(1)
    {
      for n := 0 to 30
        invariant Valid()
        invariant memory == old(memory) && v == old(v) && display == old(display) && keys == old(keys) && stack == old(stack) && randQ == old(randQ)
        invariant steps == old(steps) + seq(n, _ => Step.ExecuteCycle)
      {
        ExecuteCycle();
        assert seq(n + 1, _ => Step.ExecuteCycle) == seq(n, _ => Step.ExecuteCycle) + [Step.ExecuteCycle];
      }
      DecrementTimers();
      assert Frames(1) == seq(CYCLES_PER_FRAME, _ => Step.ExecuteCycle) + [Step.DecrementTimers];
    }
  }
}
