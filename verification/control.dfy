/** The control unit (`Diagram.signals()`): every control line is a pure
    boolean function of the sequence decoder, the instruction decoder and the
    accumulator-zero flag ACZ. */
module Control {
  import opened Js
  import opened Coders
  import Alu

  /** The sequence decoder's labels: one per T-state. */
  const SeqLabels: seq<string> := ["T0", "T1", "T2", "T3", "T4", "T5", "T6", "T7"]

  /** The instruction decoder's labels: one per opcode, in opcode order. */
  const OpLabels: seq<string> := ["load", "store", "add", "and", "jump", "jumpz", "comp", "lsl"]

  const OpLoad: int := 0
  const OpStore: int := 1
  const OpAdd: int := 2
  const OpAnd: int := 3
  const OpJump: int := 4
  const OpJumpz: int := 5
  const OpComp: int := 6
  const OpLsl: int := 7

  /** Common-bus input slots. */
  const SelMem: int := 0
  const SelAR: int := 1
  const SelPC: int := 2
  const SelDR: int := 3
  const SelAC: int := 4
  const SelIR: int := 7

  /** The opcode field the IR drives into the instruction decoder:
      `Math.floor(v / 2^12) % 2^16`. */
  function Opcode(ir: int): (op: int)
    ensures ir >= 0 ==> 0 <= op < 65536
    ensures ir < 0 ==> -65536 < op <= 0
    ensures (ir / 4096 - op) % 65536 == 0
  {
    Rem(ir / 4096, 65536)
  }

  /** An instruction word with a 12-bit operand decodes back to its opcode,
      and the low twelve bits are the operand. */
  lemma OpcodeOfWord(op: int, operand: int)
    requires 0 <= op < 8 && 0 <= operand < 4096
    ensures Opcode(op * 4096 + operand) == op
    ensures Rem(op * 4096 + operand, 4096) == operand
  {
  }

  /** Every line the control unit drives. `select` goes to the common bus;
      `aluLines` are the five requests fed to the ALU's priority encoder. */
  datatype Controls = Controls(
    select: int,
    enPC: bool,
    loadAC: bool,
    loadM: bool,
    loadAR: bool,
    loadPC: bool,
    loadDR: bool,
    loadIR: bool,
    rstSC: bool,
    aluLines: seq<bool>)

  /** The combinational control logic, label by label as written. Note the
      names `Add` and `And`: they are not labels of the instruction decoder,
      so they never read true. */
  function ControlLines(seqDec: Decoder, incDec: Decoder, acz: bool): (c: Controls)
    ensures |c.aluLines| == Alu.FunctionCount
    ensures c.select in {SelMem, SelPC, SelAC, SelIR}
  {
    var T0, T1, T2, T3, T4 := seqDec.Has("T0"), seqDec.Has("T1"), seqDec.Has("T2"), seqDec.Has("T3"), seqDec.Has("T4");
    var load, store, add, and, jump := incDec.Has("load"), incDec.Has("store"), incDec.Has("add"), incDec.Has("and"), incDec.Has("jump");
    var jumpz, comp, lsl := incDec.Has("jumpz"), incDec.Has("comp"), incDec.Has("lsl");
    var Add, And := incDec.Has("Add"), incDec.Has("And");
    var select :=
      if T1 || (T3 && load) || (Add && T2) || (And && T3) then SelMem
      else if T0 then SelPC
      else if store && T3 then SelAC
      else if T2 && (load || store || add || jump || (jumpz && acz)) then SelIR
      else SelMem;
    Controls(
      select,
      T0,
      (load && T4) || (add && T4) || (and && T4) || (comp && T2) || (lsl && T2),
      store && T3,
      (load && T2) || (store && T2) || (add && T2) || (and && T3) || T0,
      T2 && (jump || (jumpz && acz)),
      T3 && (load || add || And),
      T1,
      (load && T4) || (store && T3) || (add && T4) || (and && T4) || (comp && T2) || (lsl && T2) || (jump && T2) || (jumpz && T2),
      [add && T4, and && T4, comp && T2, lsl && T2, load && T4])
  }

  /** The T-state whose end resets the sequence counter, per opcode. */
  function LastState(op: int): int
  {
    if op == OpLoad || op == OpAdd || op == OpAnd then 4
    else if op == OpStore then 3
    else 2
  }

  /** The priority encoder over five lines, spelled out. */
  lemma LowestOfFive(lines: seq<bool>)
    requires |lines| == 5
    ensures Lowest(lines) == (
      if lines[0] then 0 else if lines[1] then 1 else if lines[2] then 2
      else if lines[3] then 3 else if lines[4] then 4 else 0)
  {
    assert LowestFrom(lines, 4) == (if lines[4] then 4 else LowestFrom(lines, 5));
    assert LowestFrom(lines, 3) == (if lines[3] then 3 else LowestFrom(lines, 4));
    assert LowestFrom(lines, 2) == (if lines[2] then 2 else LowestFrom(lines, 3));
    assert LowestFrom(lines, 1) == (if lines[1] then 1 else LowestFrom(lines, 2));
  }

  lemma LabelsDistinct()
    ensures Distinct(SeqLabels) && Distinct(OpLabels)
  {
  }

  /** A decoder over distinct labels reads label k exactly when it holds k. */
  lemma LabelReads(labels: seq<string>, v: int, k: int)
    requires Distinct(labels) && 0 <= k < |labels|
    ensures Decoder(labels, v).Has(labels[k]) <==> v == k
  {
    OneHot(Decoder(labels, v), k, labels[k], labels[k]);
  }

  /** The capitalised names never read true, whatever the opcode. */
  lemma CapitalisedNamesNeverHold(op: int)
    ensures !Decoder(OpLabels, op).Has("Add")
    ensures !Decoder(OpLabels, op).Has("And")
  {
    assert "Add" !in OpLabels;
    assert "And" !in OpLabels;
  }

  /** The control table, in terms of the T-state `t` and opcode `op` the
      decoders hold. */
  lemma ControlTable(t: int, op: int, acz: bool)
    ensures var c := ControlLines(Decoder(SeqLabels, t), Decoder(OpLabels, op), acz);
      && (c.enPC <==> t == 0)
      && (c.loadIR <==> t == 1)
      && (c.loadPC <==> t == 2 && (op == OpJump || (op == OpJumpz && acz)))
      && (c.loadAR <==> t == 0 || (t == 2 && (op == OpLoad || op == OpStore || op == OpAdd)) || (t == 3 && op == OpAnd))
      && (c.loadDR <==> t == 3 && (op == OpLoad || op == OpAdd))
      && (c.loadAC <==> (t == 4 && (op == OpLoad || op == OpAdd || op == OpAnd)) || (t == 2 && (op == OpComp || op == OpLsl)))
      && (c.loadM <==> t == 3 && op == OpStore)
      && (c.rstSC <==> 0 <= op < 8 && t == LastState(op))
      && c.select == (
           if t == 0 then SelPC
           else if t == 3 && op == OpStore then SelAC
           else if t == 2 && (op == OpLoad || op == OpStore || op == OpAdd || op == OpJump || (op == OpJumpz && acz)) then SelIR
           else SelMem)
      && Lowest(c.aluLines) == (
           if t == 4 && op == OpAdd then Alu.FuncAdd
           else if t == 4 && op == OpAnd then Alu.FuncAnd
           else if t == 2 && op == OpComp then Alu.FuncNot
           else if t == 2 && op == OpLsl then Alu.FuncLsl
           else if t == 4 && op == OpLoad then Alu.FuncPass
           else 0)
  {
    LabelsDistinct();
    CapitalisedNamesNeverHold(op);
    var s, i := Decoder(SeqLabels, t), Decoder(OpLabels, op);
    var c := ControlLines(s, i, acz);
    LowestOfFive(c.aluLines);
    forall k | 0 <= k < 8
      ensures s.Has(SeqLabels[k]) <==> t == k
      ensures i.Has(OpLabels[k]) <==> op == k
    {
      LabelReads(SeqLabels, t, k);
      LabelReads(OpLabels, op, k);
    }
  }
}
