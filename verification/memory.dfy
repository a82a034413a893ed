/** The 4096-word main memory (the `Memory` class). */
module Memory {

  /** One slot of a JavaScript array: a hole, or a stored number. */
  datatype Slot = Hole | Holds(value: int)

  /** The number of words the memory is created with. */
  const Size: nat := 4096

  /** The memory unit. `cells` is the backing array, as a map from index to
      stored word: an index that was never written is absent, like a hole of
      the sparse array the source allocates. `addr`, `data` and `we` are its
      inputs, `output` the word it last read. */
  datatype Memory = Memory(cells: map<int, int>, addr: int, data: int, we: bool, output: int)

  /** A memory as constructed: every slot a hole, address 0, nothing to write. */
  function Make(): Memory
  {
    Memory(map[], 0, 0, false, 0)
  }

  /** `memArray[a] || 0`: the stored word, or 0 for a hole. */
  function Read(cells: map<int, int>, a: int): int
  {
    if a in cells then cells[a] else 0
  }

  /** The cells of a loaded array image: exactly its filled slots. */
  function Cells(image: seq<Slot>): (cells: map<int, int>)
    ensures forall a :: a in cells <==> 0 <= a < |image| && image[a].Holds?
    ensures forall a :: 0 <= a < |image| ==> Read(cells, a) == (if image[a].Holds? then image[a].value else 0)
  {
    map a | 0 <= a < |image| && image[a].Holds? :: image[a].value
  }

  /** The `addr` setter: a new address re-reads the memory at once. */
  function SetAddr(m: Memory, a: int): (n: Memory)
    ensures n.addr == a && n.output == Read(m.cells, a)
    ensures n.cells == m.cells && n.data == m.data && n.we == m.we
  {
    m.(addr := a, output := Read(m.cells, a))
  }

  /** The `memArray` setter (`loadMemArray`): install an array image and read
      the current address from it. */
  function LoadArray(m: Memory, image: seq<Slot>): (n: Memory)
    ensures n.cells == Cells(image)
    ensures n.output == (if 0 <= m.addr < |image| && image[m.addr].Holds? then image[m.addr].value else 0)
    ensures n.addr == m.addr && n.data == m.data && n.we == m.we
  {
    var cells := Cells(image);
    m.(cells := cells, output := Read(cells, m.addr))
  }

  /** One clock edge: the word at the address is read first; then, if `we`
      is set, `data` is stored at the address. */
  function Tick(m: Memory): (n: Memory)
    ensures n.output == Read(m.cells, m.addr)
    ensures n.addr == m.addr && n.data == m.data && n.we == m.we
    ensures !m.we ==> n.cells == m.cells
    ensures m.we ==> Read(n.cells, m.addr) == m.data
    ensures forall a :: a != m.addr ==> Read(n.cells, a) == Read(m.cells, a)
  {
    var read := Read(m.cells, m.addr);
    if m.we then m.(output := read, cells := m.cells[m.addr := m.data])
    else m.(output := read)
  }

  /** Write-then-read: a word written with `we` set is what a later edge at
      the same address reads back, once `we` is cleared. */
  lemma WriteThenRead(m: Memory)
    requires m.we
    ensures Tick(Tick(m).(we := false)).output == m.data
  {
  }

  /** A written word survives edges that write elsewhere. */
  lemma {:induction false} WriteSurvives(m: Memory, others: seq<(int, int)>)
    requires forall k :: 0 <= k < |others| ==> others[k].0 != m.addr
    ensures Read(WriteEach(Tick(m).cells, others), m.addr) == (if m.we then m.data else Read(m.cells, m.addr))
    decreases |others|
  {
    if |others| > 0 {
      var last := others[|others| - 1];
      var front := others[..|others| - 1];
      WriteSurvives(m, front);
      var before := WriteEach(Tick(m).cells, front);
      var n := Tick(Memory(before, last.0, last.1, true, 0));
      assert WriteEach(Tick(m).cells, others) == n.cells;
    }
  }

  /** The cells after enabled edges at each (address, data) pair in turn. */
  function WriteEach(cells: map<int, int>, writes: seq<(int, int)>): map<int, int>
    decreases |writes|
  {
    if |writes| == 0 then cells
    else
      var front := WriteEach(cells, writes[..|writes| - 1]);
      var w := writes[|writes| - 1];
      Tick(Memory(front, w.0, w.1, true, 0)).cells
  }
}
