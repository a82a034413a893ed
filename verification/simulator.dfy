/** The simulator proper (the `Diagram` class): the components, the fixed
    wiring of every output into the inputs it feeds, the control unit's
    `signals()` and the clocked `tick()`. Each `onOutputChange` callback of
    the source is a handler function here, applied only when the output
    actually changed, in the order the source runs it. */
module Simulator {
  import opened Js
  import Signal
  import Registers
  import Memory
  import Bus
  import Alu
  import opened Coders
  import opened Control
  import opened Steps

  /** Every component of the simulated computer, plus the ACZ flag. */
  datatype Diagram = Diagram(
    mem: Memory.Memory,
    ar: Registers.Register,
    pc: Registers.Register,
    dr: Registers.Register,
    alu: Alu.Alu,
    ac: Registers.Register,
    ir: Registers.Register,
    bus: Bus.Mux,
    encoder: Encoder,
    seqDec: Decoder,
    incDec: Decoder,
    sc: Registers.Register,
    acz: bool)

  /** The modulus AR and PC data inputs are reduced by: 2^12. */
  const AddressSpan: int := 4096

  /** The diagram as constructed: AR and PC 12 bits wide, DR, AC and IR 16,
      SC a 3-bit counter, ACZ true. */
  function Initial(): Diagram
  {
    Diagram(
      Memory.Make(),
      Registers.Make(false, 12),
      Registers.Make(false, 12),
      Registers.Make(false, 16),
      Alu.Make(),
      Registers.Make(false, 16),
      Registers.Make(false, 16),
      Bus.Make(),
      MakeEncoder(Alu.FunctionCount),
      Decoder(SeqLabels, 0),
      Decoder(OpLabels, 0),
      Registers.MakeCounter(3),
      true)
  }

  /** The ALU's selector indexes its table and the encoder has its five lines:
      what the source needs to run without crashing. */
  predicate Ready(d: Diagram)
  {
    0 <= d.alu.func < Alu.FunctionCount && |d.encoder.inputs| == Alu.FunctionCount
  }

  // ---------------------------------------------------------------------------
  // The callbacks

  function OnMemOutput(d: Diagram, v: int): Diagram
  {
    d.(bus := Bus.SetInput(d.bus, SelMem, v))
  }

  /** Install a new memory state, notifying if its output changed. */
  function WithMem(d: Diagram, m: Memory.Memory): Diagram
  {
    var d1 := d.(mem := m);
    if Signal.Fires(d.mem.output, m.output) then OnMemOutput(d1, m.output) else d1
  }

  function OnAROutput(d: Diagram, v: int): Diagram
  {
    var d1 := WithMem(d, Memory.SetAddr(d.mem, v));
    d1.(bus := Bus.SetInput(d1.bus, SelAR, v))
  }

  function OnPCOutput(d: Diagram, v: int): Diagram
  {
    d.(bus := Bus.SetInput(d.bus, SelPC, v))
  }

  function OnAluOutput(d: Diagram, v: int): Diagram
  {
    d.(ac := d.ac.(data := v))
  }

  /** Install a new ALU state, notifying if its output changed. */
  function WithAlu(d: Diagram, u: Alu.Alu): Diagram
  {
    var d1 := d.(alu := u);
    if Signal.Fires(d.alu.output, u.output) then OnAluOutput(d1, u.output) else d1
  }

  function OnDROutput(d: Diagram, v: int): (n: Diagram)
    requires Ready(d)
    ensures n.alu.func == d.alu.func && n.encoder == d.encoder
  {
    var d1 := WithAlu(d, Alu.SetPortB(d.alu, v));
    d1.(bus := Bus.SetInput(d1.bus, SelDR, v))
  }

  function OnACOutput(d: Diagram, v: int): (n: Diagram)
    requires Ready(d)
    ensures n.alu.func == d.alu.func && n.encoder == d.encoder
  {
    var d1 := WithAlu(d, Alu.SetPortA(d.alu, v));
    d1.(bus := Bus.SetInput(d1.bus, SelAC, v), acz := v == 0)
  }

  /** The IR feeds the bus and, through its opcode field, the instruction
      decoder (whose own callback does nothing). */
  function OnIROutput(d: Diagram, v: int): Diagram
  {
    d.(bus := Bus.SetInput(d.bus, SelIR, v), incDec := SetDecoderInput(d.incDec, Opcode(v)))
  }

  function OnSCOutput(d: Diagram, v: int): Diagram
  {
    d.(seqDec := SetDecoderInput(d.seqDec, v))
  }

  function OnEncoderOutput(d: Diagram, v: int): (n: Diagram)
    requires 0 <= v < Alu.FunctionCount
    ensures n.alu.func == v && n.encoder == d.encoder
  {
    WithAlu(d, Alu.SetFunc(d.alu, v))
  }

  /** The bus drives the data inputs of Mem, DR and IR directly, and those of
      AR and PC reduced modulo 2^12. */
  function OnBusOutput(d: Diagram, v: int): Diagram
  {
    d.(mem := d.mem.(data := v),
       dr := d.dr.(data := v),
       ir := d.ir.(data := v),
       ar := d.ar.(data := Rem(v, AddressSpan)),
       pc := d.pc.(data := Rem(v, AddressSpan)))
  }

  /** Install a new bus state, notifying if its output changed. */
  function WithBus(d: Diagram, m: Bus.Mux): Diagram
  {
    var d1 := d.(bus := m);
    if Signal.Fires(d.bus.output, m.output) then OnBusOutput(d1, m.output) else d1
  }

  // ---------------------------------------------------------------------------
  // The clocked components, in `tickRegisters` order

  function ClockMem(d: Diagram): Diagram
  {
    WithMem(d, Memory.Tick(d.mem))
  }

  function ClockAR(d: Diagram): Diagram
  {
    var r := Registers.Tick(d.ar);
    var d1 := d.(ar := r);
    if Signal.Fires(d.ar.value, r.value) then OnAROutput(d1, r.value) else d1
  }

  function ClockPC(d: Diagram): Diagram
  {
    var r := Registers.Tick(d.pc);
    var d1 := d.(pc := r);
    if Signal.Fires(d.pc.value, r.value) then OnPCOutput(d1, r.value) else d1
  }

  function ClockDR(d: Diagram): (n: Diagram)
    requires Ready(d)
    ensures Ready(n)
  {
    var r := Registers.Tick(d.dr);
    var d1 := d.(dr := r);
    if Signal.Fires(d.dr.value, r.value) then OnDROutput(d1, r.value) else d1
  }

  function ClockAC(d: Diagram): (n: Diagram)
    requires Ready(d)
    ensures Ready(n)
  {
    var r := Registers.Tick(d.ac);
    var d1 := d.(ac := r);
    if Signal.Fires(d.ac.value, r.value) then OnACOutput(d1, r.value) else d1
  }

  function ClockIR(d: Diagram): Diagram
  {
    var r := Registers.Tick(d.ir);
    var d1 := d.(ir := r);
    if Signal.Fires(d.ir.value, r.value) then OnIROutput(d1, r.value) else d1
  }

  function ClockSC(d: Diagram): Diagram
  {
    var r := Registers.Tick(d.sc);
    var d1 := d.(sc := r);
    if Signal.Fires(d.sc.value, r.value) then OnSCOutput(d1, r.value) else d1
  }

  /** `tickRegisters`: Mem, AR, PC, DR, AC, IR, SC, each once, in that order. */
  function TickRegisters(d: Diagram): (n: Diagram)
    requires Ready(d)
    ensures Ready(n)
  {
    ClockSC(ClockIR(ClockAC(ClockDR(ClockPC(ClockAR(ClockMem(d)))))))
  }

  // ---------------------------------------------------------------------------
  // The control unit and the clock

  /** One ALU-request line into the priority encoder. */
  function SetAluLine(d: Diagram, k: int, b: bool): (n: Diagram)
    requires Ready(d) && 0 <= k < Alu.FunctionCount
    ensures Ready(n)
    ensures n.encoder.inputs == d.encoder.inputs[k := b]
    ensures n == d.(encoder := n.encoder, alu := n.alu, ac := d.ac.(data := n.ac.data))
  {
    var e := SetEncoderInput(d.encoder, k, b);
    var d1 := d.(encoder := e);
    if Signal.Fires(d.encoder.output, e.output) then OnEncoderOutput(d1, e.output) else d1
  }

  /** The `select` setter followed by `update()`. */
  function SelectBus(d: Diagram, s: int): Diagram
  {
    var d1 := WithBus(d, Bus.Select(d.bus, s));
    WithBus(d1, Bus.Update(d1.bus))
  }

  /** enPC, loadAC, loadM, loadAR, loadPC, loadDR, loadIR and rstSC. */
  function ArmLines(d: Diagram, c: Controls): Diagram
  {
    d.(pc := d.pc.(en := c.enPC, load := c.loadPC),
       ac := d.ac.(load := c.loadAC),
       mem := d.mem.(we := c.loadM),
       ar := d.ar.(load := c.loadAR),
       dr := d.dr.(load := c.loadDR),
       ir := d.ir.(load := c.loadIR),
       sc := d.sc.(rst := c.rstSC))
  }

  /** The five ALU-request lines, in order. */
  function SetAluLines(d: Diagram, lines: seq<bool>): (n: Diagram)
    requires Ready(d) && |lines| == Alu.FunctionCount
    ensures Ready(n) && n.encoder.inputs == lines
    ensures n == d.(encoder := n.encoder, alu := n.alu, ac := d.ac.(data := n.ac.data))
  {
    assert d.encoder.inputs[..0] + lines[0..] == lines;
    SetAluLinesFrom(d, lines, 0)
  }

  /** The encoder lines `k` to 4 set in order, as the five calls at the end
      of `signals()` do: lines below `k` keep their values, and only the
      encoder, the ALU and the accumulator's data input change. */
  function SetAluLinesFrom(d: Diagram, lines: seq<bool>, k: nat): (n: Diagram)
    requires Ready(d) && |lines| == Alu.FunctionCount && k <= Alu.FunctionCount
    ensures Ready(n) && n.encoder.inputs == d.encoder.inputs[..k] + lines[k..]
    ensures n == d.(encoder := n.encoder, alu := n.alu, ac := d.ac.(data := n.ac.data))
    decreases Alu.FunctionCount - k
  {
    if k == Alu.FunctionCount then
      assert d.encoder.inputs[..k] + lines[k..] == d.encoder.inputs;
      d
    else
      Splice(d.encoder.inputs, lines, k);
      SetAluLinesFrom(SetAluLine(d, k, lines[k]), lines, k + 1)
  }

  /** Overwriting line `k` with the new value moves the splice point by one. */
  lemma Splice(ins: seq<bool>, lines: seq<bool>, k: nat)
    requires |ins| == |lines| && k < |ins|
    ensures ins[k := lines[k]][..k + 1] + lines[k + 1..] == ins[..k] + lines[k..]
  {
    var a := ins[k := lines[k]][..k + 1] + lines[k + 1..];
    var b := ins[..k] + lines[k..];
    assert |a| == |b|;
    forall i | 0 <= i < |a| ensures a[i] == b[i] {
      if i < k {
      } else if i == k {
      } else {
      }
    }
  }

  /** Write the control lines to the components they drive, in source order:
      bus select (then `update()`), enPC, loadAC, loadM, loadAR, loadPC,
      loadDR, loadIR, rstSC, then the five encoder lines. */
  function Drive(d: Diagram, c: Controls): (n: Diagram)
    requires Ready(d) && |c.aluLines| == Alu.FunctionCount
    ensures Ready(n)
  {
    SetAluLines(ArmLines(SelectBus(d, c.select), c), c.aluLines)
  }

  /** `signals()`: compute the control lines from the decoders and ACZ and
      drive them. */
  function Signals(d: Diagram): (n: Diagram)
    requires Ready(d)
    ensures Ready(n)
  {
    Drive(d, ControlLines(d.seqDec, d.incDec, d.acz))
  }

  /** `tick()`: signals, the clock edge, signals again. */
  function Tick(d: Diagram): (n: Diagram)
    requires Ready(d)
    ensures Ready(n)
  {
    Signals(TickRegisters(Signals(d)))
  }

  /** `tick()` on a diagram it may be applied to, and no change on any
      other; every diagram reached from `Initial()` is `Ready`. */
  function Step(d: Diagram): (n: Diagram)
    ensures Ready(d) ==> Ready(n)
  {
    if Ready(d) then Tick(d) else d
  }

  /** `k` ticks. */
  function Ticks(d: Diagram, k: nat): Diagram
  {
    Iterate(Step, d, k)
  }

  /** `loadMemArray`: install a memory image. */
  function LoadMemArray(d: Diagram, image: seq<Memory.Slot>): Diagram
  {
    WithMem(d, Memory.LoadArray(d.mem, image))
  }
}
