/** The instruction set the control unit implements, as the programmer sees
    it: one instruction per fetch, over memory, PC, AC and DR. The register
    transfers of each T-state are first summarised as a micro-step, and the
    micro-steps of one instruction are then shown to execute it. */
module Isa {
  import opened Js
  import opened Control
  import opened Rtl
  import opened Steps
  import Memory
  import Alu

  /** A word whose opcode field names one of the eight instructions and whose
      operand fits in 12 bits: a 3-bit opcode over a 12-bit operand. Memory
      can hold other words too, since the literal form of the assembler and
      `store` write any number; `IdleCycle` covers those whose opcode field
      names no instruction. */
  predicate Encodable(w: int)
  {
    0 <= w < 8 * 4096
  }

  /** The state a program can observe. */
  datatype Cpu = Cpu(mem: map<int, int>, pc: int, ac: int, dr: int)

  /** The word at the program counter. */
  function Fetched(c: Cpu): int
  {
    Memory.Read(c.mem, c.pc)
  }

  /** What an instruction word does once fetched, to a machine whose PC has
      already moved past it: `load n` copies M[n] into AC (through DR),
      `store n` writes AC to M[n], `add n` adds M[n] to AC (through DR),
      `jump n` and `jumpz n` go to n (the latter only when AC is zero), `comp`
      and `lsl` complement and double AC. `and n` is the machine as wired: DR
      is never loaded, so AC is combined with whatever DR held. */
  function Perform(c: Cpu, w: int): Cpu
    requires Encodable(w)
  {
    var op, n := w / 4096, w % 4096;
    if op == OpLoad then c.(ac := Memory.Read(c.mem, n), dr := Memory.Read(c.mem, n))
    else if op == OpStore then c.(mem := c.mem[n := c.ac])
    else if op == OpAdd then c.(ac := c.ac + Memory.Read(c.mem, n), dr := Memory.Read(c.mem, n))
    else if op == OpAnd then c.(ac := BitAnd(c.ac, c.dr))
    else if op == OpJump then c.(pc := n)
    else if op == OpJumpz then (if c.ac == 0 then c.(pc := n) else c)
    else if op == OpComp then c.(ac := BitNot(c.ac))
    else c.(ac := ShiftLeftOne(c.ac))
  }

  /** One instruction: fetch the word at PC, step PC past it, perform it. */
  function Execute(c: Cpu): Cpu
    requires Encodable(Fetched(c))
  {
    Perform(c.(pc := (c.pc + 1) % 4096), Fetched(c))
  }

  /** The observable part of a register-transfer state. */
  function Arch(r: Rtl): Cpu
  {
    Cpu(r.cells, r.pc, r.ac, r.dr)
  }

  /** About to fetch: the counter is at T0 and PC addresses memory. */
  predicate AtFetch(r: Rtl)
  {
    r.sc == 0 && 0 <= r.pc < 4096
  }

  /** Somewhere inside an instruction: past T0 the memory output is the word
      at AR, and past T1 the IR holds an encodable word whose last T-state
      has not been passed. */
  predicate InCycle(r: Rtl)
  {
    && 0 <= r.sc <= 4
    && (r.sc == 0 ==> 0 <= r.pc < 4096)
    && (r.sc >= 1 ==> r.memOut == Memory.Read(r.cells, r.ar))
    && (r.sc >= 2 ==> Encodable(r.ir) && r.sc <= LastState(r.ir / 4096))
  }

  /** The register transfers of one T-state, as a table over the state and
      the opcode in IR. */
  function MicroStep(r: Rtl): Rtl
    requires InCycle(r)
  {
    var op, n := r.ir / 4096, r.ir % 4096;
    if r.sc == 0 then r.(ar := r.pc, memOut := Memory.Read(r.cells, r.pc), pc := (r.pc + 1) % 4096, sc := 1)
    else if r.sc == 1 then r.(ir := r.memOut, sc := 2)
    else if r.sc == 2 then
      if op == OpLoad || op == OpStore || op == OpAdd then r.(ar := n, memOut := Memory.Read(r.cells, n), sc := 3)
      else if op == OpAnd then r.(sc := 3)
      else if op == OpJump then r.(pc := n, sc := 0)
      else if op == OpJumpz then r.(pc := if r.ac == 0 then n else r.pc, sc := 0)
      else if op == OpComp then r.(ac := BitNot(r.ac), sc := 0)
      else r.(ac := ShiftLeftOne(r.ac), sc := 0)
    else if r.sc == 3 then
      if op == OpStore then r.(cells := r.cells[r.ar := r.ac], sc := 0)
      else if op == OpAnd then r.(ar := Rem(r.memOut, 4096), memOut := Memory.Read(r.cells, Rem(r.memOut, 4096)), sc := 4)
      else r.(dr := r.memOut, sc := 4)
    else
      if op == OpLoad then r.(ac := r.dr, sc := 0)
      else if op == OpAdd then r.(ac := r.ac + r.dr, sc := 0)
      else r.(ac := BitAnd(r.ac, r.dr), sc := 0)
  }

  /** Inside an instruction, a clock cycle performs exactly the micro-step. */
  lemma TransferIsMicro(r: Rtl)
    requires InCycle(r)
    ensures Transfer(r) == MicroStep(r)
  {
    if r.sc == 0 {
      TransferAtT0(r);
    } else if r.sc == 1 {
      TransferAtT1(r);
    } else if r.sc == 2 {
      TransferAtT2(r);
    } else if r.sc == 3 {
      TransferAtT3(r);
    } else {
      TransferAtT4(r);
    }
  }

  lemma TransferAtT0(r: Rtl)
    requires InCycle(r) && r.sc == 0
    ensures Transfer(r) == MicroStep(r)
  {
    assert Pow2(12) == 4096 && Pow2(3) == 8;
    ControlTable(0, Opcode(r.ir), r.ac == 0);
  }

  lemma TransferAtT1(r: Rtl)
    requires InCycle(r) && r.sc == 1
    ensures Transfer(r) == MicroStep(r)
  {
    assert Pow2(3) == 8;
    ControlTable(1, Opcode(r.ir), r.ac == 0);
  }

  lemma TransferAtT2(r: Rtl)
    requires InCycle(r) && r.sc == 2
    ensures Transfer(r) == MicroStep(r)
  {
    assert Pow2(12) == 4096 && Pow2(3) == 8;
    assert Opcode(r.ir) == r.ir / 4096;
    assert Rem(r.ir, 4096) == r.ir % 4096;
    ControlTable(2, r.ir / 4096, r.ac == 0);
  }

  lemma TransferAtT3(r: Rtl)
    requires InCycle(r) && r.sc == 3
    ensures Transfer(r) == MicroStep(r)
  {
    assert Pow2(12) == 4096 && Pow2(3) == 8;
    assert Opcode(r.ir) == r.ir / 4096;
    ControlTable(3, r.ir / 4096, r.ac == 0);
  }

  lemma TransferAtT4(r: Rtl)
    requires InCycle(r) && r.sc == 4
    ensures Transfer(r) == MicroStep(r)
  {
    assert Pow2(3) == 8;
    assert Opcode(r.ir) == r.ir / 4096;
    ControlTable(4, r.ir / 4096, r.ac == 0);
  }

  /** A clock step `f` implements the micro-steps: inside an instruction it
      performs exactly the micro-step. The lemmas below are stated for any
      such `f`, so that the clock cycle's gate-level definition is not
      unfolded along a run; `TransferImplementsMicro` discharges them for
      `Transfer`. */
  ghost predicate Implements(f: Rtl -> Rtl)
  {
    forall r :: InCycle(r) ==> f(r) == MicroStep(r)
  }

  lemma TransferImplementsMicro()
    ensures Implements(Transfer)
  {
    forall r | InCycle(r)
      ensures Transfer(r) == MicroStep(r)
    {
      TransferIsMicro(r);
    }
  }

  /** A run entered inside an instruction starts with its micro-step. */
  lemma RunMicro(f: Rtl -> Rtl, r: Rtl, k: nat)
    requires Implements(f) && InCycle(r)
    ensures Iterate(f, r, k + 1) == Iterate(f, MicroStep(r), k)
  {
    IterateFirst(f, r, k);
  }

  /** The state after T0 and T1: AR and the memory output on the fetched
      word's address, PC stepped, the word in IR. */
  function Decoded(r: Rtl): Rtl
  {
    var w := Memory.Read(r.cells, r.pc);
    r.(ar := r.pc, memOut := w, pc := (r.pc + 1) % 4096, ir := w, sc := 2)
  }

  /** The first two cycles fetch the word at PC, whatever it holds. */
  lemma FetchSteps(f: Rtl -> Rtl, r: Rtl, k: nat)
    requires Implements(f) && AtFetch(r)
    ensures Iterate(f, r, k + 2) == Iterate(f, Decoded(r), k)
  {
    RunMicro(f, r, k + 1);
    RunMicro(f, MicroStep(r), k);
  }

  /** The first two cycles of an instruction fetch it. */
  lemma FetchPhase(f: Rtl -> Rtl, r: Rtl, k: nat)
    requires Implements(f)
    requires AtFetch(r) && Encodable(Memory.Read(r.cells, r.pc))
    ensures DecodedState(Decoded(r))
    ensures Iterate(f, r, k + 2) == Iterate(f, Decoded(r), k)
  {
    FetchSteps(f, r, k);
  }

  /** What the remaining cycles of a decoded instruction may assume: the
      counter at T2, the memory output still on the instruction word, PC in
      range. */
  predicate DecodedState(d: Rtl)
  {
    InCycle(d) && d.sc == 2 && d.memOut == d.ir && 0 <= d.pc < 4096
  }

  /** The remaining cycles of a decoded instruction perform it and reset the
      counter. */
  lemma ExecutePhase(f: Rtl -> Rtl, d: Rtl)
    requires Implements(f) && DecodedState(d)
    ensures var n := Iterate(f, d, LastState(d.ir / 4096) - 1);
      AtFetch(n) && Arch(n) == Perform(Arch(d), d.ir)
  {
    var op := d.ir / 4096;
    if op == OpLoad || op == OpAdd {
      ExecuteLoadAdd(f, d);
    } else if op == OpStore {
      ExecuteStore(f, d);
    } else if op == OpAnd {
      ExecuteAnd(f, d);
    } else {
      ExecuteRegisterOp(f, d);
    }
  }

  /** `load` and `add`: T2 addresses the operand, T3 loads it into DR, T4
      updates AC from DR. */
  lemma ExecuteLoadAdd(f: Rtl -> Rtl, d: Rtl)
    requires Implements(f) && DecodedState(d)
    requires d.ir / 4096 == OpLoad || d.ir / 4096 == OpAdd
    ensures var n := Iterate(f, d, 3);
      AtFetch(n) && Arch(n) == Perform(Arch(d), d.ir)
  {
    var d3 := MicroStep(d);
    var d4 := MicroStep(d3);
    RunMicro(f, d, 2);
    RunMicro(f, d3, 1);
    RunMicro(f, d4, 0);
  }

  /** `store`: T2 addresses the operand, T3 writes AC there. */
  lemma ExecuteStore(f: Rtl -> Rtl, d: Rtl)
    requires Implements(f) && DecodedState(d) && d.ir / 4096 == OpStore
    ensures var n := Iterate(f, d, 2);
      AtFetch(n) && Arch(n) == Perform(Arch(d), d.ir)
  {
    RunMicro(f, d, 1);
    RunMicro(f, MicroStep(d), 0);
  }

  /** `and`: nothing happens at T2; T3 sends the memory output, still the
      instruction word, to AR; T4 combines AC with DR as it stood. */
  lemma ExecuteAnd(f: Rtl -> Rtl, d: Rtl)
    requires Implements(f) && DecodedState(d) && d.ir / 4096 == OpAnd
    ensures var n := Iterate(f, d, 3);
      AtFetch(n) && Arch(n) == Perform(Arch(d), d.ir)
  {
    var d3 := MicroStep(d);
    var d4 := MicroStep(d3);
    RunMicro(f, d, 2);
    RunMicro(f, d3, 1);
    RunMicro(f, d4, 0);
  }

  /** `jump`, `jumpz`, `comp` and `lsl` finish at T2. */
  lemma ExecuteRegisterOp(f: Rtl -> Rtl, d: Rtl)
    requires Implements(f) && DecodedState(d) && LastState(d.ir / 4096) == 2
    ensures var n := Iterate(f, d, 1);
      AtFetch(n) && Arch(n) == Perform(Arch(d), d.ir)
  {
    RunMicro(f, d, 0);
  }

  /** One fetched instruction runs for `LastState(op) + 1` steps of any
      clock step implementing the micro-steps, performs `Execute` on the
      observable state and leaves the machine ready to fetch the next one. */
  lemma CycleOf(f: Rtl -> Rtl, r: Rtl)
    requires Implements(f)
    requires AtFetch(r) && Encodable(Memory.Read(r.cells, r.pc))
    ensures var n := Iterate(f, r, LastState(Memory.Read(r.cells, r.pc) / 4096) + 1);
      AtFetch(n) && Arch(n) == Execute(Arch(r))
  {
    var w := Memory.Read(r.cells, r.pc);
    FetchPhase(f, r, LastState(w / 4096) - 1);
    ExecutePhase(f, Decoded(r));
  }

  /** A word whose opcode field, as the IR drives it into the instruction
      decoder, matches no label. */
  predicate Unassigned(w: int)
  {
    !(0 <= Opcode(w) < 8)
  }

  /** Every word is an instruction, has an unassigned opcode field, or has a
      magnitude of about 2^28 or more, where the 16-bit opcode field wraps
      back onto an instruction. */
  lemma WordsCovered(w: int)
    ensures Encodable(w) || Unassigned(w) || w >= 0x1000_0000 || w < -0x1000_0000 + 4096
  {
    if 8 * 4096 <= w < 0x1000_0000 {
      assert 8 <= w / 4096 < 65536;
    } else if -0x1000_0000 + 4096 <= w < 0 {
      assert -65536 < w / 4096 < 0;
    }
  }

  /** Past T1 of a word with an unassigned opcode: the counter between T2
      and T7, the memory output on the word at AR. */
  predicate Idling(r: Rtl)
  {
    2 <= r.sc <= 7 && Unassigned(r.ir) && r.memOut == Memory.Read(r.cells, r.ar)
  }

  /** The clock cycle of an idling machine: no control line but the
      counter's enable is driven. */
  function IdleStep(r: Rtl): Rtl
  {
    r.(sc := (r.sc + 1) % 8)
  }

  /** An idling machine only advances its sequence counter, wrapping from
      T7 to T0. */
  lemma TransferWhileIdling(r: Rtl)
    requires Idling(r)
    ensures Transfer(r) == IdleStep(r)
  {
    ControlTable(r.sc, Opcode(r.ir), r.ac == 0);
  }

  /** A clock step `f` idles as the clock cycle does. */
  ghost predicate Idles(f: Rtl -> Rtl)
  {
    forall r :: Idling(r) ==> f(r) == IdleStep(r)
  }

  lemma TransferIdles()
    ensures Idles(Transfer)
  {
    forall r | Idling(r)
      ensures Transfer(r) == IdleStep(r)
    {
      TransferWhileIdling(r);
    }
  }

  /** From any idling state, the steps up to T7 change nothing but bring the
      counter back to T0. */
  lemma {:induction false} IdleRun(f: Rtl -> Rtl, d: Rtl)
    requires Idles(f) && Idling(d)
    ensures Iterate(f, d, 8 - d.sc) == d.(sc := 0)
    decreases 8 - d.sc
  {
    IterateFirst(f, d, 7 - d.sc);
    if d.sc < 7 {
      IdleRun(f, IdleStep(d));
    }
  }

  /** A fetched word whose opcode field names no instruction runs for all
      eight T-states, since no `rstSC` fires, and only steps PC past it. */
  lemma IdleCycleOf(f: Rtl -> Rtl, r: Rtl)
    requires Implements(f) && Idles(f)
    requires AtFetch(r) && Unassigned(Memory.Read(r.cells, r.pc))
    ensures var n := Iterate(f, r, 8);
      AtFetch(n) && Arch(n) == Arch(r).(pc := (r.pc + 1) % 4096)
  {
    FetchSteps(f, r, 6);
    IdleRun(f, Decoded(r));
  }

  /** The clock-cycle form of `IdleCycleOf`. */
  lemma IdleCycle(r: Rtl)
    requires AtFetch(r) && Unassigned(Memory.Read(r.cells, r.pc))
    ensures var n := Run(r, 8);
      AtFetch(n) && Arch(n) == Arch(r).(pc := (r.pc + 1) % 4096)
  {
    TransferImplementsMicro();
    TransferIdles();
    IdleCycleOf(Transfer, r);
  }

  /** One fetched instruction runs for `LastState(op) + 1` clock cycles,
      performs `Execute` on the observable state and leaves the machine
      ready to fetch the next one. */
  lemma InstructionCycle(r: Rtl)
    requires AtFetch(r) && Encodable(Memory.Read(r.cells, r.pc))
    ensures var n := Run(r, LastState(Memory.Read(r.cells, r.pc) / 4096) + 1);
      AtFetch(n) && Arch(n) == Execute(Arch(r))
  {
    TransferImplementsMicro();
    CycleOf(Transfer, r);
  }
}
