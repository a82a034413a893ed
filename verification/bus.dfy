/** The common bus, an 8-input multiplexer (the `Multiplexer` class). */
module Bus {

  /** The multiplexer. `inputs` is its input array: a slot never set is
      absent and reads as 0. `output` is only recomputed when the selection
      is written or `update()` is called, never when an input changes. */
  datatype Mux = Mux(inputs: map<int, int>, select: int, output: int)

  /** A multiplexer as constructed: no input set, input 0 selected. */
  function Make(): Mux
  {
    Mux(map[], 0, 0)
  }

  /** `inputs[i] || 0`. */
  function Input(m: Mux, i: int): int
  {
    if i in m.inputs then m.inputs[i] else 0
  }

  /** `setInput`: records the input; the output does not follow. */
  function SetInput(m: Mux, i: int, v: int): (n: Mux)
    ensures n.output == m.output && n.select == m.select
    ensures Input(n, i) == v
    ensures forall j :: j != i ==> Input(n, j) == Input(m, j)
  {
    m.(inputs := m.inputs[i := v])
  }

  /** The `select` setter: routes the chosen input to the output. */
  function Select(m: Mux, s: int): (n: Mux)
    ensures n.select == s && n.output == Input(m, s)
    ensures forall j :: Input(n, j) == Input(m, j)
  {
    m.(select := s, output := Input(m, s))
  }

  /** `update()`: re-reads the selected input. */
  function Update(m: Mux): (n: Mux)
    ensures n.select == m.select && n.output == Input(m, m.select)
    ensures forall j :: Input(n, j) == Input(m, j)
  {
    m.(output := Input(m, m.select))
  }

  /** Input changes never reach the output until the next `update()`, and
      then the output is the selected input's latest value. */
  lemma NoGlitch(m: Mux, i: int, v: int)
    ensures SetInput(m, i, v).output == m.output
    ensures Update(SetInput(m, i, v)).output == (if i == m.select then v else Input(m, m.select))
  {
  }
}
