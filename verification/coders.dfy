/** The one-hot decoders and the priority encoder (the `Decoder` and
    `Encoder` classes). */
module Coders {

  /** A decoder: its labels, in order, and the integer it holds. Reading a
      label gives `output === index` for that label's index; a name that is
      not a label reads as undefined, i.e. false. */
  datatype Decoder = Decoder(labels: seq<string>, output: int)
  {
    predicate Has(name: string)
    {
      0 <= output < |labels| && labels[output] == name
    }
  }

  /** The `input` setter. */
  function SetDecoderInput(d: Decoder, v: int): (n: Decoder)
    ensures n.output == v && n.labels == d.labels
  {
    d.(output := v)
  }

  /** No label appears twice. */
  predicate Distinct(labels: seq<string>)
  {
    forall i, j :: 0 <= i < j < |labels| ==> labels[i] != labels[j]
  }

  /** Label i reads true exactly when the decoder holds i, so at most one
      label is ever true; names that are not labels never read true. */
  lemma OneHot(d: Decoder, i: int, x: string, y: string)
    requires Distinct(d.labels)
    ensures 0 <= i < |d.labels| ==> (d.Has(d.labels[i]) <==> d.output == i)
    ensures d.Has(x) && d.Has(y) ==> x == y
    ensures x !in d.labels ==> !d.Has(x)
  {
  }

  /** A priority encoder: its input lines and its output. */
  datatype Encoder = Encoder(inputs: seq<bool>, output: int)

  /** An encoder as constructed: `n` unset lines, output 0. */
  function MakeEncoder(n: nat): Encoder
  {
    Encoder(seq(n, _ => false), 0)
  }

  /** The index of the lowest asserted line, or 0 when no line is asserted. */
  function Lowest(lines: seq<bool>): (r: nat)
    ensures r == 0 || r < |lines|
  {
    LowestFrom(lines, 0)
  }

  /** The scan of `setInput`, from line `i` upward. */
  function LowestFrom(lines: seq<bool>, i: nat): (r: nat)
    requires i <= |lines|
    ensures r == 0 || i <= r < |lines|
    decreases |lines| - i
  {
    if i == |lines| then 0
    else if lines[i] then i
    else LowestFrom(lines, i + 1)
  }

  /** The encoder's output is the lowest asserted line, and 0 when none is. */
  lemma LowestIsLowest(lines: seq<bool>)
    ensures (exists i :: 0 <= i < |lines| && lines[i]) ==> Lowest(lines) < |lines| && lines[Lowest(lines)] && forall j :: 0 <= j < Lowest(lines) ==> !lines[j]
    ensures (forall i :: 0 <= i < |lines| ==> !lines[i]) ==> Lowest(lines) == 0
  {
    LowestFromIsLowest(lines, 0);
  }

  /** The scan from `i`, knowing lines below `i` are clear. */
  lemma {:induction false} LowestFromIsLowest(lines: seq<bool>, i: nat)
    requires i <= |lines|
    requires forall j :: 0 <= j < i ==> !lines[j]
    ensures (exists k :: i <= k < |lines| && lines[k]) ==> LowestFrom(lines, i) < |lines| && lines[LowestFrom(lines, i)] && forall j :: 0 <= j < LowestFrom(lines, i) ==> !lines[j]
    ensures (forall k :: i <= k < |lines| ==> !lines[k]) ==> LowestFrom(lines, i) == 0
    decreases |lines| - i
  {
    if i < |lines| && !lines[i] {
      LowestFromIsLowest(lines, i + 1);
    }
  }

  /** `setInput`: sets one line and rescans all lines by ascending index. */
  function SetEncoderInput(e: Encoder, key: int, value: bool): (n: Encoder)
    requires 0 <= key < |e.inputs|
    ensures |n.inputs| == |e.inputs| && n.inputs[key] == value
    ensures forall j :: 0 <= j < |e.inputs| && j != key ==> n.inputs[j] == e.inputs[j]
    ensures 0 <= n.output < |n.inputs|
    ensures n.output == Lowest(n.inputs)
  {
    var lines := e.inputs[key := value];
    Encoder(lines, Lowest(lines))
  }
}
