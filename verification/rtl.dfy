/** The register-transfer view of the simulator: the values held by the
    memory and the clocked registers, and what one clock cycle does to them.
    `Refinement.TickRefinesTransfer` shows the component-level simulator
    computes exactly this. */
module Rtl {
  import opened Js
  import Registers
  import Memory
  import Alu
  import opened Coders
  import opened Control
  import opened Steps

  /** The state that survives a clock cycle. `memOut` is the word the memory
      last read; `acz` is not listed because it always equals `ac == 0`. */
  datatype Rtl = Rtl(cells: map<int, int>, memOut: int, ar: int, pc: int, dr: int, ac: int, ir: int, sc: int)

  /** The value the common bus offers from input slot `k`. */
  function BusSource(r: Rtl, k: int): int
  {
    if k == SelMem then r.memOut
    else if k == SelAR then r.ar
    else if k == SelPC then r.pc
    else if k == SelDR then r.dr
    else if k == SelAC then r.ac
    else if k == SelIR then r.ir
    else 0
  }

  /** The value a register of `bits` bits with the given lines takes at a clock edge. */
  function Reg(value: int, load: bool, en: bool, rst: bool, data: int, bits: nat): int
  {
    Registers.Next(Registers.Register(value, load, en, rst, data, bits))
  }

  /** The clock edge, given the control lines `c` and the bus value `b`
      latched before it: Mem, AR, PC, DR, AC, IR and SC in that order. DR is
      clocked before AC, so the ALU sees the new DR; the memory's output is
      re-read after the write only if AR changed. */
  function Edge(r: Rtl, c: Controls, b: int): (n: Rtl)
    requires |c.aluLines| == Alu.FunctionCount
    ensures n.cells == (if c.loadM then r.cells[r.ar := b] else r.cells)
    ensures c.loadAR ==> n.ar == Rem(b, 4096)
    ensures !c.loadAR ==> n.ar == r.ar
    ensures n.memOut == Memory.Read(if n.ar != r.ar then n.cells else r.cells, n.ar)
    ensures c.loadDR ==> n.dr == b
    ensures !c.loadDR ==> n.dr == r.dr
    ensures c.loadIR ==> n.ir == b
    ensures !c.loadIR ==> n.ir == r.ir
    ensures c.loadAC ==> n.ac == Alu.Apply(Lowest(c.aluLines), r.ac, n.dr)
    ensures !c.loadAC ==> n.ac == r.ac
    ensures c.rstSC ==> n.sc == 0
  {
    var cells := if c.loadM then r.cells[r.ar := b] else r.cells;
    var ar := Reg(r.ar, c.loadAR, false, false, Rem(b, 4096), 12);
    var memOut := if ar != r.ar then Memory.Read(cells, ar) else Memory.Read(r.cells, r.ar);
    var pc := Reg(r.pc, c.loadPC, c.enPC, false, Rem(b, 4096), 12);
    var dr := Reg(r.dr, c.loadDR, false, false, b, 16);
    var ac := Reg(r.ac, c.loadAC, false, false, Alu.Apply(Lowest(c.aluLines), r.ac, dr), 16);
    var ir := Reg(r.ir, c.loadIR, false, false, b, 16);
    var sc := Reg(r.sc, false, true, c.rstSC, 0, 3);
    Rtl(cells, memOut, ar, pc, dr, ac, ir, sc)
  }

  /** The two counting registers at a clock edge: PC loads the bus modulo
      2^12 and counts when enabled, the load applied first; SC resets or
      counts modulo 8. */
  lemma EdgeCounters(r: Rtl, c: Controls, b: int)
    requires |c.aluLines| == Alu.FunctionCount
    ensures var n := Edge(r, c, b);
      && (c.loadPC && !c.enPC ==> n.pc == Rem(b, 4096))
      && (!c.loadPC && c.enPC ==> n.pc == Rem(r.pc + 1, 4096))
      && (c.loadPC && c.enPC ==> n.pc == Rem(Rem(b, 4096) + 1, 4096))
      && (!c.loadPC && !c.enPC ==> n.pc == r.pc)
      && (c.rstSC ==> n.sc == 0)
      && (!c.rstSC ==> n.sc == Rem(r.sc + 1, 8))
  {
    assert Pow2(12) == 4096 && Pow2(3) == 8;
  }

  /** The control lines the decoders and ACZ produce in state `r`. */
  function LinesOf(r: Rtl): (c: Controls)
    ensures |c.aluLines| == Alu.FunctionCount
  {
    ControlLines(Decoder(SeqLabels, r.sc), Decoder(OpLabels, Opcode(r.ir)), r.ac == 0)
  }

  /** One full clock cycle. */
  function Transfer(r: Rtl): Rtl
  {
    var c := LinesOf(r);
    Edge(r, c, BusSource(r, c.select))
  }

  /** `k` clock cycles. */
  function Run(r: Rtl, k: nat): Rtl
  {
    Iterate(Transfer, r, k)
  }

  /** A run of `k + 1` cycles is one cycle followed by a run of `k`. */
  lemma RunFirst(r: Rtl, k: nat)
    ensures Run(r, k + 1) == Run(Transfer(r), k)
  {
    IterateFirst(Transfer, r, k);
  }

  /** A run of `k + 1` cycles is a run of `k` followed by one cycle. */
  lemma RunLast(r: Rtl, k: nat)
    ensures Run(r, k + 1) == Transfer(Run(r, k))
  {
    IterateLast(Transfer, r, k);
  }

  /** The sequence counter stays a 3-bit value. */
  lemma CounterStaysInRange(r: Rtl)
    requires 0 <= r.sc < 8
    ensures 0 <= Transfer(r).sc < 8
  {
    assert Pow2(3) == 8;
  }
}
