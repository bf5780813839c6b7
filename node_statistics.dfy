/**
 Per-host statistics: two 32-bit throughput counters that grow by added
 deltas, and the spout and bolt executors placed on the host, in the order
 they were added. The executor summary type is a type parameter.
 */
module NodeStats {

  /** Java's `int`: a two's-complement 32-bit integer. */
  newtype int32 = x: int | -0x8000_0000 <= x < 0x8000_0000

  const TWO_32: int := 0x1_0000_0000

  /** The 32-bit value of `x`, as Java's `+=` on an `Integer` leaves it. */
  function Wrap32(x: int): (r: int32)
    ensures -0x8000_0000 <= x < 0x8000_0000 ==> r as int == x
    ensures (x - r as int) % TWO_32 == 0
  {
    ((x + 0x8000_0000) % TWO_32 - 0x8000_0000) as int32
  }

  /** Adding to a wrapped value and wrapping again is wrapping the exact sum. */
  lemma WrapAdd(a: int, b: int)
    ensures Wrap32(Wrap32(a) as int + b) == Wrap32(a + b)
  {
  }

  /** Java's overflow: one more than the largest int is the smallest int. */
  lemma OverflowExample()
    ensures Wrap32(0x7FFF_FFFF + 1) == -0x8000_0000
    ensures Wrap32(Wrap32(0x7FFF_FFFF) as int + 0x7FFF_FFFF) == -2
  {
  }

  /** One call that changes a NodeStatistics object. */
  datatype Call<E> =
    | SpoutAdded(executor: E)
    | BoltAdded(executor: E)
    | TransferAdded(delta: int32)
    | EmitAdded(delta: int32)

  /** The executors added as spouts, in call order. */
  function SpoutsOf<E>(h: seq<Call<E>>): seq<E>
  {
    if h == [] then []
    else
      var last := h[|h| - 1];
      SpoutsOf(h[..|h| - 1]) + (if last.SpoutAdded? then [last.executor] else [])
  }

  /** The executors added as bolts, in call order. */
  function BoltsOf<E>(h: seq<Call<E>>): seq<E>
  {
    if h == [] then []
    else
      var last := h[|h| - 1];
      BoltsOf(h[..|h| - 1]) + (if last.BoltAdded? then [last.executor] else [])
  }

  /** The exact sum of the transfer deltas. */
  function TransferTotal<E>(h: seq<Call<E>>): int
  {
    if h == [] then 0
    else
      var last := h[|h| - 1];
      TransferTotal(h[..|h| - 1]) + (if last.TransferAdded? then last.delta as int else 0)
  }

  /** The exact sum of the emit deltas. */
  function EmitTotal<E>(h: seq<Call<E>>): int
  {
    if h == [] then 0
    else
      var last := h[|h| - 1];
      EmitTotal(h[..|h| - 1]) + (if last.EmitAdded? then last.delta as int else 0)
  }

  /** The number of spout additions. */
  function SpoutCalls<E>(h: seq<Call<E>>): nat
  {
    if h == [] then 0 else SpoutCalls(h[..|h| - 1]) + (if h[|h| - 1].SpoutAdded? then 1 else 0)
  }

  /** The number of bolt additions. */
  function BoltCalls<E>(h: seq<Call<E>>): nat
  {
    if h == [] then 0 else BoltCalls(h[..|h| - 1]) + (if h[|h| - 1].BoltAdded? then 1 else 0)
  }

  /** One list entry per add call. */
  lemma {:induction false} ListLengths<E>(h: seq<Call<E>>)
    ensures |SpoutsOf(h)| == SpoutCalls(h) && |BoltsOf(h)| == BoltCalls(h)
  {
    if h != [] {
      ListLengths(h[..|h| - 1]);
    }
  }

  /**
   The lists and totals of two consecutive runs of calls are those of the
   first run followed by those of the second: nothing is reordered or lost.
   */
  lemma {:induction false} HistoryAppend<E>(h1: seq<Call<E>>, h2: seq<Call<E>>)
    ensures SpoutsOf(h1 + h2) == SpoutsOf(h1) + SpoutsOf(h2)
    ensures BoltsOf(h1 + h2) == BoltsOf(h1) + BoltsOf(h2)
    ensures TransferTotal(h1 + h2) == TransferTotal(h1) + TransferTotal(h2)
    ensures EmitTotal(h1 + h2) == EmitTotal(h1) + EmitTotal(h2)
    decreases |h2|
  {
    if h2 != [] {
      var init := h2[..|h2| - 1];
      assert (h1 + h2)[..|h1 + h2| - 1] == h1 + init;
      assert (h1 + h2)[|h1 + h2| - 1] == h2[|h2| - 1];
      HistoryAppend(h1, init);
    } else {
      assert h1 + h2 == h1;
    }
  }

  /** The i-th spout is the executor of the i-th spout addition. */
  lemma {:induction false} SpoutsInCallOrder<E>(h: seq<Call<E>>, j: int)
    requires 0 <= j < |h| && h[j].SpoutAdded?
    ensures SpoutCalls(h[..j]) < |SpoutsOf(h)|
    ensures SpoutsOf(h)[SpoutCalls(h[..j])] == h[j].executor
  {
    assert h == h[..j] + [h[j]] + h[j + 1..];
    HistoryAppend(h[..j] + [h[j]], h[j + 1..]);
    HistoryAppend(h[..j], [h[j]]);
    assert SpoutsOf([h[j]]) == [h[j].executor] by {
      assert [h[j]][..0] == [];
    }
    ListLengths(h[..j]);
  }

  /** The i-th bolt is the executor of the i-th bolt addition. */
  lemma {:induction false} BoltsInCallOrder<E>(h: seq<Call<E>>, j: int)
    requires 0 <= j < |h| && h[j].BoltAdded?
    ensures BoltCalls(h[..j]) < |BoltsOf(h)|
    ensures BoltsOf(h)[BoltCalls(h[..j])] == h[j].executor
  {
    assert h == h[..j] + [h[j]] + h[j + 1..];
    HistoryAppend(h[..j] + [h[j]], h[j + 1..]);
    HistoryAppend(h[..j], [h[j]]);
    assert BoltsOf([h[j]]) == [h[j].executor] by {
      assert [h[j]][..0] == [];
    }
    ListLengths(h[..j]);
  }

  class NodeStatistics<E> {
    const id: string
    var transferThroughput: int32
    var emitThroughput: int32
    var spouts: seq<E>
    var bolts: seq<E>
    /** Every call made on this object so far, oldest first. */
    ghost var history: seq<Call<E>>

    /**
     The state is what the calls so far produce: each counter is the wrapped
     sum of its deltas, and each list holds its executors in call order.
     */
    ghost predicate Valid()
      reads this
    {
      && transferThroughput == Wrap32(TransferTotal(history))
      && emitThroughput == Wrap32(EmitTotal(history))
      && spouts == SpoutsOf(history)
      && bolts == BoltsOf(history)
    }

    constructor (host: string)
      ensures id == host
      ensures transferThroughput == 0 && emitThroughput == 0
      ensures spouts == [] && bolts == []
      ensures history == [] && Valid()
    {
      id := host;
      transferThroughput := 0;
      emitThroughput := 0;
      spouts := [];
      bolts := [];
      history := [];
    }

    method AddSpout(executorSummary: E)
      requires Valid()
      modifies this
      ensures spouts == old(spouts) + [executorSummary]
      ensures bolts == old(bolts)
      ensures transferThroughput == old(transferThroughput) && emitThroughput == old(emitThroughput)
      ensures history == old(history) + [SpoutAdded(executorSummary)]
      ensures Valid()
    {
      history := history + [SpoutAdded(executorSummary)];
      assert history[..|history| - 1] == old(history);
      spouts := spouts + [executorSummary];
    }

    method AddBolt(executorSummary: E)
      requires Valid()
      modifies this
      ensures bolts == old(bolts) + [executorSummary]
      ensures spouts == old(spouts)
      ensures transferThroughput == old(transferThroughput) && emitThroughput == old(emitThroughput)
      ensures history == old(history) + [BoltAdded(executorSummary)]
      ensures Valid()
    {
      history := history + [BoltAdded(executorSummary)];
      assert history[..|history| - 1] == old(history);
      bolts := bolts + [executorSummary];
    }

    method AddTransferThroughput(value: int32)
      requires Valid()
      modifies this
      ensures transferThroughput == Wrap32(old(transferThroughput) as int + value as int)
      ensures emitThroughput == old(emitThroughput)
      ensures spouts == old(spouts) && bolts == old(bolts)
      ensures history == old(history) + [TransferAdded(value)]
      ensures Valid()
    {
      WrapAdd(TransferTotal(history), value as int);
      history := history + [TransferAdded(value)];
      assert history[..|history| - 1] == old(history);
      transferThroughput := Wrap32(transferThroughput as int + value as int);
    }

    method AddEmitThroughput(value: int32)
      requires Valid()
      modifies this
      ensures emitThroughput == Wrap32(old(emitThroughput) as int + value as int)
      ensures transferThroughput == old(transferThroughput)
      ensures spouts == old(spouts) && bolts == old(bolts)
      ensures history == old(history) + [EmitAdded(value)]
      ensures Valid()
    {
      WrapAdd(EmitTotal(history), value as int);
      history := history + [EmitAdded(value)];
      assert history[..|history| - 1] == old(history);
      emitThroughput := Wrap32(emitThroughput as int + value as int);
    }
  }
}
