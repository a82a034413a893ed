/** The arithmetic-logic unit (the `ALU` class): a combinational function of
    two ports, chosen by a selector indexing a five-entry function table. */
module Alu {
  import opened Js

  /** Selector values, in table order. */
  const FuncAdd: int := 0
  const FuncAnd: int := 1
  const FuncNot: int := 2
  const FuncLsl: int := 3
  const FuncPass: int := 4
  const FunctionCount: int := 5

  /** The unit: its ports, its selector and the output last computed. */
  datatype Alu = Alu(portA: int, portB: int, func: int, output: int)

  /** The function table: `a + b`, `a & b`, `~a`, `a << 1`, `b`. Indexing past
      the table is a crash in the source, so callers must stay inside it. */
  function Apply(func: int, a: int, b: int): int
    requires 0 <= func < FunctionCount
  {
    if func == FuncAdd then a + b
    else if func == FuncAnd then BitAnd(a, b)
    else if func == FuncNot then BitNot(a)
    else if func == FuncLsl then ShiftLeftOne(a)
    else b
  }

  /** The output is the selected function of the current ports. */
  predicate Consistent(u: Alu)
  {
    0 <= u.func < FunctionCount && u.output == Apply(u.func, u.portA, u.portB)
  }

  /** An ALU as constructed. */
  function Make(): (u: Alu)
    ensures Consistent(u)
  {
    Alu(0, 0, FuncAdd, 0)
  }

  /** The `portA` setter recomputes the output. */
  function SetPortA(u: Alu, v: int): (n: Alu)
    requires 0 <= u.func < FunctionCount
    ensures Consistent(n)
    ensures n.portA == v && n.portB == u.portB && n.func == u.func
  {
    u.(portA := v, output := Apply(u.func, v, u.portB))
  }

  /** The `portB` setter recomputes the output. */
  function SetPortB(u: Alu, v: int): (n: Alu)
    requires 0 <= u.func < FunctionCount
    ensures Consistent(n)
    ensures n.portB == v && n.portA == u.portA && n.func == u.func
  {
    u.(portB := v, output := Apply(u.func, u.portA, v))
  }

  /** The `func` setter recomputes the output. */
  function SetFunc(u: Alu, f: int): (n: Alu)
    requires 0 <= f < FunctionCount
    ensures Consistent(n)
    ensures n.func == f && n.portA == u.portA && n.portB == u.portB
  {
    u.(func := f, output := Apply(f, u.portA, u.portB))
  }

  /** What each table entry computes, on JavaScript numbers. */
  lemma FunctionTable(a: int, b: int)
    ensures Apply(FuncAdd, 5, 3) == 8
    ensures Apply(FuncAdd, a, b) == a + b
    ensures 0 <= a < Two31 && 0 <= b < Two31 ==> 0 <= Apply(FuncAnd, a, b) <= a && Apply(FuncAnd, a, b) <= b
    ensures Apply(FuncNot, 0, b) == -1
    ensures -Two31 <= a < Two31 ==> Apply(FuncNot, a, b) == -a - 1
    ensures -Two31 / 2 <= a < Two31 / 2 ==> Apply(FuncLsl, a, b) == 2 * a
    ensures Apply(FuncPass, a, b) == b
  {
  }

  /** Complementing twice gives back any 32-bit value. */
  lemma NotTwice(a: int)
    requires -Two31 <= a < Two31
    ensures Apply(FuncNot, Apply(FuncNot, a, 0), 0) == a
  {
  }
}
