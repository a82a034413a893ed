/** A small program for the machine: it adds the words at 6
    and 7, stores the sum at 8 and then spins on a jump to itself. */
module Example {
  import opened Assembler
  import Memory
  import opened Rtl
  import opened Isa
  import opened Steps
  import Simulator
  import Refinement
  import Control

  const Program: seq<string> := ["load 6", "add 7", "store 8", "jump 3", "0", "0", "5", "4"]

  /** How each line of the program classifies. */
  const Listing: seq<Line> := [
    Operand(0, 6), Operand(2, 7), Operand(1, 8), Operand(4, 3),
    Literal(0), Literal(0), Literal(5), Literal(4)]

  /** The program assembles to the image of its listing. */
  lemma ProgramAssembles()
    ensures Assemble(Program) == Assembled(Image(Listing))
  {
    assert Digits(6) == "6" && Digits(7) == "7" && Digits(8) == "8" && Digits(3) == "3";
    assert Digits(0) == "0" && Digits(5) == "5" && Digits(4) == "4";
    var lines := Disassemble(Listing);
    forall i | 0 <= i < 8
      ensures lines[i] == Program[i]
    {
    }
    assert lines == Program;
    AssembleDisassembled(Listing);
  }

  /** The words of the program, as they sit in memory. */
  ghost predicate ProgramIn(cells: map<int, int>)
  {
    && Memory.Read(cells, 0) == Control.OpLoad * 4096 + 6
    && Memory.Read(cells, 1) == Control.OpAdd * 4096 + 7
    && Memory.Read(cells, 2) == Control.OpStore * 4096 + 8
    && Memory.Read(cells, 3) == Control.OpJump * 4096 + 3
    && Memory.Read(cells, 6) == 5
    && Memory.Read(cells, 7) == 4
  }

  /** The assembled image puts the program's words at their addresses. */
  lemma ImageHoldsProgram()
    ensures ProgramIn(Memory.Cells(Image(Listing)))
  {
    var image := Image(Listing);
    assert |image| == 4096;
    forall a | 0 <= a < 8
      ensures image[a] == Memory.Holds(Word(Listing[a]))
    {
    }
  }

  /** A jump to its own address keeps the observable state, three cycles at
      a time. */
  lemma {:induction false} SpinsWith(f: Rtl -> Rtl, r: Rtl, k: nat)
    requires Implements(f)
    requires AtFetch(r) && Memory.Read(r.cells, r.pc) == Control.OpJump * 4096 + r.pc
    ensures AtFetch(Iterate(f, r, 3 * k)) && Arch(Iterate(f, r, 3 * k)) == Arch(r)
  {
    if k > 0 {
      SpinsWith(f, r, k - 1);
      var s := Iterate(f, r, 3 * (k - 1));
      CycleOf(f, s);
      IterateAdds(f, r, 3 * (k - 1), 3);
    }
  }

  /** `load 6` takes five cycles and brings M[6] into AC and DR. */
  lemma LoadCycle(f: Rtl -> Rtl, r: Rtl)
    requires Implements(f)
    requires AtFetch(r) && r.pc == 0 && ProgramIn(r.cells)
    ensures var n := Iterate(f, r, 5);
      AtFetch(n) && Arch(n) == Arch(r).(pc := 1, ac := 5, dr := 5)
  {
    CycleOf(f, r);
  }

  /** `add 7` takes five cycles and adds M[7] to AC. */
  lemma AddCycle(f: Rtl -> Rtl, r: Rtl)
    requires Implements(f)
    requires AtFetch(r) && r.pc == 1 && r.ac == 5 && ProgramIn(r.cells)
    ensures var n := Iterate(f, r, 5);
      AtFetch(n) && Arch(n) == Arch(r).(pc := 2, ac := 9, dr := 4)
  {
    CycleOf(f, r);
  }

  /** `store 8` takes four cycles and writes AC to address 8. */
  lemma StoreCycle(f: Rtl -> Rtl, r: Rtl)
    requires Implements(f)
    requires AtFetch(r) && r.pc == 2 && ProgramIn(r.cells)
    ensures var n := Iterate(f, r, 4);
      AtFetch(n) && Arch(n) == Arch(r).(pc := 3, mem := r.cells[8 := r.ac])
  {
    CycleOf(f, r);
  }

  /** The first three instructions take 14 cycles and leave the sum in AC
      and at address 8, with PC on the jump. */
  lemma FirstPassWith(f: Rtl -> Rtl, r0: Rtl)
    requires Implements(f)
    requires AtFetch(r0) && r0.pc == 0 && ProgramIn(r0.cells)
    ensures var n := Iterate(f, r0, 14);
      && AtFetch(n) && n.pc == 3 && n.ac == 9
      && Memory.Read(n.cells, 8) == 9
      && Memory.Read(n.cells, 3) == Control.OpJump * 4096 + 3
  {
    LoadCycle(f, r0);
    var r1 := Iterate(f, r0, 5);
    AddCycle(f, r1);
    var r2 := Iterate(f, r1, 5);
    StoreCycle(f, r2);
    IterateAdds(f, r0, 5, 5);
    IterateAdds(f, r0, 10, 4);
  }

  /** After the first pass the machine spins on the jump, so the sum stays
      in AC and at address 8. */
  lemma RunsWith(f: Rtl -> Rtl, r0: Rtl, k: nat)
    requires Implements(f)
    requires AtFetch(r0) && r0.pc == 0 && ProgramIn(r0.cells)
    ensures var n := Iterate(f, r0, 14 + 3 * k);
      && n.sc == 0 && n.pc == 3 && n.ac == 9
      && Memory.Read(n.cells, 8) == 9
  {
    FirstPassWith(f, r0);
    var r := Iterate(f, r0, 14);
    IterateAdds(f, r0, 14, 3 * k);
    SpinsWith(f, r, k);
  }

  /** The machine a freshly built, freshly loaded simulator presents. */
  lemma LoadedMachine()
    ensures var d := Simulator.LoadMemArray(Simulator.Initial(), Image(Listing));
      var r := Refinement.Project(d);
      Refinement.Wired(d) && AtFetch(r) && r.pc == 0 && r.ac == 0 && ProgramIn(r.cells)
  {
    Refinement.InitialWired();
    Refinement.LoadKeepsWiring(Simulator.Initial(), Image(Listing));
    ImageHoldsProgram();
  }

  /** Loading the assembled program into a freshly built machine and
      ticking the clock: after 14 ticks, and every 3 ticks after that, AC
      and address 8 hold 5 + 4 and the machine is about to fetch the jump
      at 3. */
  lemma ProgramRuns(k: nat)
    ensures var d := Simulator.Ticks(Simulator.LoadMemArray(Simulator.Initial(), Image(Listing)), 14 + 3 * k);
      && d.ac.value == 9 && Memory.Read(d.mem.cells, 8) == 9
      && d.pc.value == 3 && d.sc.value == 0
  {
    var d := Simulator.LoadMemArray(Simulator.Initial(), Image(Listing));
    var r0 := Refinement.Project(d);
    LoadedMachine();
    Refinement.TicksRefineRun(d, 14 + 3 * k);
    TransferImplementsMicro();
    RunsWith(Transfer, r0, k);
  }
}
