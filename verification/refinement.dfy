/** The wiring invariant of the simulator, and the proof that one `tick()` of
    the component-level simulator is exactly one register-transfer cycle. */
module Refinement {
  import opened Js
  import Signal
  import Registers
  import Memory
  import Bus
  import Alu
  import opened Coders
  import opened Control
  import opened Rtl
  import opened Simulator
  import opened Steps

  /** The register-transfer state a diagram holds. */
  function Project(d: Diagram): Rtl
  {
    Rtl(d.mem.cells, d.mem.output, d.ar.value, d.pc.value, d.dr.value, d.ac.value, d.ir.value, d.sc.value)
  }

  /** Register widths and the control lines no one ever drives. */
  predicate Shaped(d: Diagram)
  {
    && Ready(d)
    && d.ar.bits == 12 && d.pc.bits == 12 && d.dr.bits == 16 && d.ac.bits == 16 && d.ir.bits == 16 && d.sc.bits == 3
    && !d.ar.en && !d.ar.rst && !d.pc.rst && !d.dr.en && !d.dr.rst
    && !d.ac.en && !d.ac.rst && !d.ir.en && !d.ir.rst
    && d.sc.en && !d.sc.load
    && d.seqDec.labels == SeqLabels && d.incDec.labels == OpLabels
  }

  /** Every input fed by an output holds what that output last published:
      the fixed wiring of the diagram's constructor. Only the bus output
      (latched at the last select/update) and the memory output (latched at
      the last read) are free. */
  predicate Wired(d: Diagram)
  {
    && Shaped(d)
    && d.mem.addr == d.ar.value
    && Bus.Input(d.bus, SelMem) == d.mem.output
    && Bus.Input(d.bus, SelAR) == d.ar.value
    && Bus.Input(d.bus, SelPC) == d.pc.value
    && Bus.Input(d.bus, SelDR) == d.dr.value
    && Bus.Input(d.bus, SelAC) == d.ac.value
    && Bus.Input(d.bus, SelIR) == d.ir.value
    && d.mem.data == d.bus.output && d.dr.data == d.bus.output && d.ir.data == d.bus.output
    && d.ar.data == Rem(d.bus.output, AddressSpan) && d.pc.data == Rem(d.bus.output, AddressSpan)
    && d.alu.portA == d.ac.value && d.alu.portB == d.dr.value
    && d.alu.func == d.encoder.output && Alu.Consistent(d.alu) && d.ac.data == d.alu.output
    && d.encoder.output == Lowest(d.encoder.inputs)
    && d.acz == (d.ac.value == 0)
    && d.seqDec.output == d.sc.value && d.incDec.output == Opcode(d.ir.value)
    && 0 <= d.sc.value < 8
  }

  /** The constructor establishes the wiring; every register starts at 0. */
  lemma InitialWired()
    ensures Wired(Initial())
    ensures Project(Initial()) == Rtl(map[], 0, 0, 0, 0, 0, 0, 0)
  {
    LowestIsLowest(MakeEncoder(Alu.FunctionCount).inputs);
  }

  /** Loading a memory image keeps the wiring and replaces the cells. */
  lemma LoadKeepsWiring(d: Diagram, image: seq<Memory.Slot>)
    requires Wired(d)
    ensures Wired(LoadMemArray(d, image))
    ensures Project(LoadMemArray(d, image)) == Project(d).(cells := Memory.Cells(image), memOut := Memory.Read(Memory.Cells(image), d.ar.value))
  {
  }

  lemma ClockMemStep(d: Diagram)
    requires Wired(d)
    ensures var n := ClockMem(d); var m := Memory.Tick(d.mem);
      Wired(n) && n.mem == m && n.ar == d.ar && n.pc == d.pc && n.dr == d.dr && n.ac == d.ac && n.ir == d.ir && n.sc == d.sc
      && n.bus.output == d.bus.output && n.bus.select == d.bus.select && n.encoder == d.encoder
  {
    var m := Memory.Tick(d.mem);
    var d1 := d.(mem := m);
    if Signal.Fires(d.mem.output, m.output) {
      var n := d1.(bus := Bus.SetInput(d1.bus, SelMem, m.output));
      assert n == ClockMem(d);
      assert Wired(n);
    } else {
      assert Wired(d1);
    }
  }

  lemma ClockARStep(d: Diagram)
    requires Wired(d)
    ensures var n := ClockAR(d); var v := Registers.Tick(d.ar).value;
      Wired(n) && n.ar == Registers.Tick(d.ar) && n.mem.cells == d.mem.cells
      && n.mem.output == (if v != d.ar.value then Memory.Read(d.mem.cells, v) else d.mem.output)
      && n.mem.we == d.mem.we && n.pc == d.pc && n.dr == d.dr && n.ac == d.ac && n.ir == d.ir && n.sc == d.sc
      && n.bus.output == d.bus.output && n.bus.select == d.bus.select && n.encoder == d.encoder
  {
    var r := Registers.Tick(d.ar);
    var d1 := d.(ar := r);
    if Signal.Fires(d.ar.value, r.value) {
      var m := Memory.SetAddr(d1.mem, r.value);
      var d2 := d1.(mem := m);
      var d3 := if Signal.Fires(d1.mem.output, m.output) then d2.(bus := Bus.SetInput(d2.bus, SelMem, m.output)) else d2;
      var n := d3.(bus := Bus.SetInput(d3.bus, SelAR, r.value));
      assert n == ClockAR(d);
      assert Wired(n);
    } else {
      assert Wired(d1);
    }
  }

  lemma ClockPCStep(d: Diagram)
    requires Wired(d)
    ensures var n := ClockPC(d);
      Wired(n) && n.pc == Registers.Tick(d.pc) && n.mem == d.mem && n.ar == d.ar && n.dr == d.dr && n.ac == d.ac && n.ir == d.ir && n.sc == d.sc
      && n.bus.output == d.bus.output && n.bus.select == d.bus.select && n.encoder == d.encoder
  {
    var r := Registers.Tick(d.pc);
    var d1 := d.(pc := r);
    if Signal.Fires(d.pc.value, r.value) {
      var n := d1.(bus := Bus.SetInput(d1.bus, SelPC, r.value));
      assert n == ClockPC(d);
      assert Wired(n);
    } else {
      assert Wired(d1);
    }
  }

  lemma ClockDRStep(d: Diagram)
    requires Wired(d)
    ensures var n := ClockDR(d);
      Wired(n) && n.dr == Registers.Tick(d.dr) && n.mem == d.mem && n.ar == d.ar && n.pc == d.pc && n.ac.value == d.ac.value
      && n.ac.load == d.ac.load && n.ir == d.ir && n.sc == d.sc
      && n.bus.output == d.bus.output && n.bus.select == d.bus.select && n.encoder == d.encoder
  {
    var r := Registers.Tick(d.dr);
    var d1 := d.(dr := r);
    if Signal.Fires(d.dr.value, r.value) {
      var u := Alu.SetPortB(d1.alu, r.value);
      var d2 := d1.(alu := u);
      var d3 := if Signal.Fires(d1.alu.output, u.output) then OnAluOutput(d2, u.output) else d2;
      var n := d3.(bus := Bus.SetInput(d3.bus, SelDR, r.value));
      assert n == ClockDR(d);
      assert Wired(n);
    } else {
      assert Wired(d1);
    }
  }

  lemma ClockACStep(d: Diagram)
    requires Wired(d)
    ensures var n := ClockAC(d);
      Wired(n) && n.ac.value == Registers.Tick(d.ac).value && n.ac.load == d.ac.load && n.mem == d.mem && n.ar == d.ar && n.pc == d.pc && n.dr == d.dr && n.ir == d.ir && n.sc == d.sc
      && n.bus.output == d.bus.output && n.bus.select == d.bus.select && n.encoder == d.encoder
  {
    var r := Registers.Tick(d.ac);
    var d1 := d.(ac := r);
    if Signal.Fires(d.ac.value, r.value) {
      var u := Alu.SetPortA(d1.alu, r.value);
      var d2 := d1.(alu := u);
      var d3 := if Signal.Fires(d1.alu.output, u.output) then OnAluOutput(d2, u.output) else d2;
      var n := d3.(bus := Bus.SetInput(d3.bus, SelAC, r.value), acz := r.value == 0);
      assert n == ClockAC(d);
      assert Wired(n);
    } else {
      assert Wired(d1);
    }
  }

  lemma ClockIRStep(d: Diagram)
    requires Wired(d)
    ensures var n := ClockIR(d);
      Wired(n) && n.ir == Registers.Tick(d.ir) && n.mem == d.mem && n.ar == d.ar && n.pc == d.pc && n.dr == d.dr && n.ac == d.ac && n.sc == d.sc
      && n.bus.output == d.bus.output && n.bus.select == d.bus.select && n.encoder == d.encoder
  {
    var r := Registers.Tick(d.ir);
    var d1 := d.(ir := r);
    if Signal.Fires(d.ir.value, r.value) {
      var n := d1.(bus := Bus.SetInput(d1.bus, SelIR, r.value), incDec := SetDecoderInput(d1.incDec, Opcode(r.value)));
      assert n == ClockIR(d);
      assert Wired(n);
    } else {
      assert Wired(d1);
    }
  }

  lemma ClockSCStep(d: Diagram)
    requires Wired(d)
    ensures var n := ClockSC(d);
      Wired(n) && n.sc == Registers.Tick(d.sc) && n.mem == d.mem && n.ar == d.ar && n.pc == d.pc && n.dr == d.dr && n.ac == d.ac && n.ir == d.ir
      && n.bus.output == d.bus.output && n.bus.select == d.bus.select && n.encoder == d.encoder
  {
    assert Pow2(3) == 8;
    var r := Registers.Tick(d.sc);
    var d1 := d.(sc := r);
    if Signal.Fires(d.sc.value, r.value) {
      var n := d1.(seqDec := SetDecoderInput(d1.seqDec, r.value));
      assert n == ClockSC(d);
      assert Wired(n);
    } else {
      assert Wired(d1);
    }
  }

  /** The control lines as the diagram currently holds them. */
  function Armed(d: Diagram): Controls
  {
    Controls(d.bus.select, d.pc.en, d.ac.load, d.mem.we, d.ar.load, d.pc.load, d.dr.load, d.ir.load, d.sc.rst, d.encoder.inputs)
  }

  /** The first three clocks of `tickRegisters`: Mem, AR and PC. */
  lemma FrontClocks(d: Diagram)
    requires Wired(d)
    ensures var n := ClockPC(ClockAR(ClockMem(d))); var m := Memory.Tick(d.mem); var ar := Registers.Tick(d.ar).value;
      && Wired(n) && n.mem.cells == m.cells && n.mem.we == d.mem.we && n.ar.value == ar
      && n.mem.output == (if ar != d.ar.value then Memory.Read(m.cells, ar) else m.output)
      && n.pc.value == Registers.Tick(d.pc).value && n.dr == d.dr && n.ac == d.ac && n.ir == d.ir && n.sc == d.sc
      && Armed(n) == Armed(d) && n.bus.output == d.bus.output && n.alu.func == d.alu.func
  {
    var d1 := ClockMem(d);
    ClockMemStep(d);
    var d2 := ClockAR(d1);
    ClockARStep(d1);
    ClockPCStep(d2);
  }

  /** The last four clocks of `tickRegisters`: DR, AC, IR and SC. The
      accumulator loads what the ALU computes from the DR value just
      clocked. */
  lemma BackClocks(d: Diagram)
    requires Wired(d)
    ensures var n := ClockSC(ClockIR(ClockAC(ClockDR(d)))); var dr := Registers.Tick(d.dr).value;
      && Wired(n) && n.mem == d.mem && n.ar.value == d.ar.value && n.pc.value == d.pc.value && n.dr.value == dr
      && n.ac.value == Reg(d.ac.value, d.ac.load, false, false, Alu.Apply(d.alu.func, d.ac.value, dr), 16)
      && n.ir.value == Registers.Tick(d.ir).value && n.sc.value == Registers.Tick(d.sc).value
      && Armed(n) == Armed(d) && n.bus.output == d.bus.output
  {
    var d4 := ClockDR(d);
    ClockDRStep(d);
    var d5 := ClockAC(d4);
    ClockACStep(d4);
    var d6 := ClockIR(d5);
    ClockIRStep(d5);
    ClockSCStep(d6);
  }

  /** The register values the seven clocks leave are those of `Edge`. */
  lemma EdgeOfClocks(d: Diagram, n: Diagram)
    requires Wired(d)
    requires var m := Memory.Tick(d.mem); var ar := Registers.Tick(d.ar).value; var dr := Registers.Tick(d.dr).value;
      && n.mem.cells == m.cells && n.ar.value == ar
      && n.mem.output == (if ar != d.ar.value then Memory.Read(m.cells, ar) else m.output)
      && n.pc.value == Registers.Tick(d.pc).value && n.dr.value == dr
      && n.ac.value == Reg(d.ac.value, d.ac.load, false, false, Alu.Apply(d.alu.func, d.ac.value, dr), 16)
      && n.ir.value == Registers.Tick(d.ir).value && n.sc.value == Registers.Tick(d.sc).value
    ensures Project(n) == Edge(Project(d), Armed(d), d.bus.output)
  {
  }

  /** The clock edge of the diagram is the register-transfer edge driven by
      the lines it holds and the bus value latched before the edge. */
  lemma ClockEffect(d: Diagram)
    requires Wired(d)
    ensures var n := TickRegisters(d);
      && Wired(n)
      && Project(n) == Edge(Project(d), Armed(d), d.bus.output)
      && Armed(n) == Armed(d) && n.bus.output == d.bus.output
  {
    var d3 := ClockPC(ClockAR(ClockMem(d)));
    FrontClocks(d);
    var n := ClockSC(ClockIR(ClockAC(ClockDR(d3))));
    BackClocks(d3);
    EdgeOfClocks(d, n);
  }

  lemma BusStep(d: Diagram, m: Bus.Mux)
    requires Wired(d) && m.inputs == d.bus.inputs
    ensures var n := WithBus(d, m);
      Wired(n) && Project(n) == Project(d) && n.bus == m && Armed(n) == Armed(d).(select := m.select)
  {
    var d1 := d.(bus := m);
    if Signal.Fires(d.bus.output, m.output) {
      var n := OnBusOutput(d1, m.output);
      assert Shaped(n);
      assert Wired(n);
    } else {
      assert Wired(d1);
    }
  }

  /** Selecting a bus input and updating puts that input on the bus and arms
      the new select. */
  lemma SelectBusEffect(d: Diagram, s: int)
    requires Wired(d)
    ensures var n := SelectBus(d, s);
      Wired(n) && Project(n) == Project(d) && Armed(n) == Armed(d).(select := s) && n.bus.output == Bus.Input(d.bus, s)
  {
    var d1 := WithBus(d, Bus.Select(d.bus, s));
    BusStep(d, Bus.Select(d.bus, s));
    BusStep(d1, Bus.Update(d1.bus));
  }

  /** Setting one encoder line keeps the wiring: the ALU function follows
      the encoder, and the accumulator input follows the ALU. */
  lemma AluLineStep(d: Diagram, k: int, b: bool)
    requires Wired(d) && 0 <= k < Alu.FunctionCount
    ensures Wired(SetAluLine(d, k, b))
  {
    var e := SetEncoderInput(d.encoder, k, b);
    var d1 := d.(encoder := e);
    var n := SetAluLine(d, k, b);
    if Signal.Fires(d.encoder.output, e.output) {
      var u := Alu.SetFunc(d1.alu, e.output);
      var d2 := d1.(alu := u);
      if Signal.Fires(d1.alu.output, u.output) {
        assert n == d2.(ac := d2.ac.(data := u.output));
        assert Wired(n);
      } else {
        assert n == d2;
        assert Wired(d2);
      }
    } else {
      assert n == d1;
      assert Wired(d1);
    }
  }

  lemma {:induction false} AluLinesFromWired(d: Diagram, lines: seq<bool>, k: nat)
    requires Wired(d) && |lines| == Alu.FunctionCount && k <= Alu.FunctionCount
    ensures Wired(SetAluLinesFrom(d, lines, k))
    decreases Alu.FunctionCount - k
  {
    if k < Alu.FunctionCount {
      AluLineStep(d, k, lines[k]);
      AluLinesFromWired(SetAluLine(d, k, lines[k]), lines, k + 1);
    }
  }

  lemma AluLinesEffect(d: Diagram, lines: seq<bool>)
    requires Wired(d) && |lines| == Alu.FunctionCount
    ensures var n := SetAluLines(d, lines);
      Wired(n) && Project(n) == Project(d) && n.bus == d.bus && Armed(n) == Armed(d).(aluLines := lines)
  {
    AluLinesFromWired(d, lines, 0);
  }

  /** Driving the control lines changes no register value, arms every line
      as given and puts the selected input on the bus. */
  lemma DriveEffect(d: Diagram, c: Controls)
    requires Wired(d) && |c.aluLines| == Alu.FunctionCount
    ensures var n := Drive(d, c);
      Wired(n) && Project(n) == Project(d) && Armed(n) == c && n.bus.output == Bus.Input(d.bus, c.select)
  {
    var d1 := SelectBus(d, c.select);
    SelectBusEffect(d, c.select);
    var d2 := ArmLines(d1, c);
    ArmLinesEffect(d1, c);
    AluLinesEffect(d2, c.aluLines);
  }

  /** Arming the register lines keeps the wiring and the register values. */
  lemma ArmLinesEffect(d: Diagram, c: Controls)
    requires Wired(d)
    ensures var n := ArmLines(d, c);
      Wired(n) && Project(n) == Project(d) && n.bus == d.bus
      && Armed(n) == c.(select := d.bus.select, aluLines := d.encoder.inputs)
  {
  }

  /** Every input the bus can select carries the register it is wired to. */
  lemma BusCarriesSource(d: Diagram, s: int)
    requires Wired(d) && s in {SelMem, SelAR, SelPC, SelDR, SelAC, SelIR}
    ensures Bus.Input(d.bus, s) == BusSource(Project(d), s)
  {
  }

  /** `signals()` on a wired diagram arms the lines the register-transfer
      level computes from the registers and puts the selected register on
      the bus. */
  lemma SignalsEffect(d: Diagram)
    requires Wired(d)
    ensures var n := Signals(d); var c := LinesOf(Project(d));
      Wired(n) && Project(n) == Project(d) && Armed(n) == c && n.bus.output == BusSource(Project(d), c.select)
  {
    var c := ControlLines(d.seqDec, d.incDec, d.acz);
    assert d.seqDec == Decoder(SeqLabels, d.sc.value);
    assert d.incDec == Decoder(OpLabels, Opcode(d.ir.value));
    assert c == LinesOf(Project(d));
    DriveEffect(d, c);
    BusCarriesSource(d, c.select);
  }

  /** One tick of the diagram is one register-transfer cycle, and it keeps
      the wiring. */
  lemma TickRefinesTransfer(d: Diagram)
    requires Wired(d)
    ensures Wired(Tick(d)) && Project(Tick(d)) == Transfer(Project(d))
  {
    var d1 := Signals(d);
    SignalsEffect(d);
    var d2 := TickRegisters(d1);
    ClockEffect(d1);
    SignalsEffect(d2);
  }

  /** The total form of `Tick` used by `Ticks`. */
  lemma StepRefinesTransfer(d: Diagram)
    requires Wired(d)
    ensures Wired(Step(d)) && Project(Step(d)) == Transfer(Project(d))
  {
    TickRefinesTransfer(d);
  }

  /** Every step of a wired diagram is a register-transfer cycle. */
  lemma StepSimulatesTransfer()
    ensures Simulation(Step, Transfer, Project, Wired)
  {
    forall s | Wired(s) ensures Wired(Step(s)) && Project(Step(s)) == Transfer(Project(s)) {
      StepRefinesTransfer(s);
    }
  }

  /** `k` ticks of the diagram are `k` register-transfer cycles, and keep
      the wiring. */
  lemma TicksRefineRun(d: Diagram, k: nat)
    requires Wired(d)
    ensures Wired(Ticks(d, k)) && Project(Ticks(d, k)) == Run(Project(d), k)
  {
    StepSimulatesTransfer();
    Simulate(Step, Transfer, Project, Wired, d, k);
  }

}
