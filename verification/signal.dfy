/** The output every simulated component publishes (the `Component.output`
    setter): a write stores the value and notifies the component's subscriber,
    but only when the value actually changes. */
module Signal {

  /** Outcome of writes to an output: the value now held and how many
      notifications the subscriber received. */
  datatype Write = Write(output: int, notified: nat)

  /** One write of `value` to an output currently holding `current`. */
  function SetOutput(current: int, value: int): (w: Write)
    ensures w.output == value
    ensures w.notified <= 1
    ensures w.notified == 0 <==> current == value
  {
    if current != value then Write(value, 1) else Write(current, 0)
  }

  /** Whether writing `value` over `current` reaches the subscriber. */
  predicate Fires(current: int, value: int)
  {
    SetOutput(current, value).notified > 0
  }

  /** A run of writes, in order, starting from an output holding `current`. */
  function WriteAll(current: int, values: seq<int>): (w: Write)
    ensures |values| > 0 ==> w.output == values[|values| - 1]
    ensures |values| == 0 ==> w == Write(current, 0)
    ensures w.notified <= |values|
    decreases |values|
  {
    if |values| == 0 then Write(current, 0)
    else
      var first := SetOutput(current, values[0]);
      var rest := WriteAll(first.output, values[1..]);
      Write(rest.output, first.notified + rest.notified)
  }

  /** How many writes in the run change the value held, counted from the last
      write back: write k changes it when it differs from the write before,
      or from `current` for the first. */
  function Changes(current: int, values: seq<int>): nat
    decreases |values|
  {
    if |values| == 0 then 0
    else
      var k := |values| - 1;
      var before := if k == 0 then current else values[k - 1];
      Changes(current, values[..k]) + (if values[k] != before then 1 else 0)
  }

  /** Counting changes from the front: the first write, then the rest over
      the value it left. */
  lemma {:induction false} ChangesFromFront(current: int, values: seq<int>)
    requires |values| > 0
    ensures Changes(current, values) == (if values[0] != current then 1 else 0) + Changes(values[0], values[1..])
    decreases |values|
  {
    var k := |values| - 1;
    if k > 0 {
      ChangesFromFront(current, values[..k]);
      assert values[..k][1..] == values[1..][..k - 1];
      assert values[..k][0] == values[0];
    } else {
      assert values[1..] == [];
    }
  }

  /** A run of writes notifies the subscriber once for every write that
      changes the value held, and for no other. */
  lemma {:induction false} WriteAllNotifiesChanges(current: int, values: seq<int>)
    ensures WriteAll(current, values).notified == Changes(current, values)
    decreases |values|
  {
    if |values| > 0 {
      WriteAllNotifiesChanges(values[0], values[1..]);
      ChangesFromFront(current, values);
    }
  }

  /** Writing the same value any number of times notifies at most once: once
      if it differs from what was held, never otherwise. */
  lemma {:induction false} RepeatedWriteNotifiesOnce(current: int, value: int, times: nat)
    decreases times
    requires times >= 1
    ensures WriteAll(current, seq(times, _ => value)) == Write(value, if current == value then 0 else 1)
  {
    var values := seq(times, _ => value);
    if times > 1 {
      assert values[1..] == seq(times - 1, _ => value);
      RepeatedWriteNotifiesOnce(value, value, times - 1);
    } else {
      assert values[1..] == [];
    }
  }
}
