/**
 * The pipeline of main.go taken sequentially: numbers pass the negative
 * filter, then the multiple-of-three filter, and every survivor is pushed
 * into the buffering stage's ring buffer; a flush is one call to Get.
 */
module Pipeline {
  import opened Wrappers
  import opened Filters
  import opened RingBuffers

  /** bufferSize: the capacity of the buffering stage's ring buffer. */
  const BufferSize: nat := 10

  /** The numbers that reach the buffering stage, in arrival order. */
  function Survivors(inputs: seq<int>): seq<int>
  {
    MultipleOfThreeStage(NegativeStage(inputs))
  }

  /**
   * What a flush returns after the fill loop has pushed every survivor of
   * `inputs` into a fresh buffer: no data if nothing survived, otherwise
   * the last (at most BufferSize) survivors, oldest first.
   */
  function FlushAfter(inputs: seq<int>): (batch: Option<seq<int>>)
    ensures batch == None <==> Survivors(inputs) == []
    ensures batch.Some? ==> 1 <= |batch.value| <= BufferSize
  {
    var s := Survivors(inputs);
    if s == [] then None else Some(Window(s, BufferSize))
  }

  /**
   * The flush is what pushing every survivor, in order, into an empty
   * buffer of capacity BufferSize leaves behind.
   */
  lemma {:induction false} FlushIsPushAll(inputs: seq<int>)
    ensures var s := Survivors(inputs);
      FlushAfter(inputs) == if s == [] then None else Some(PushAll([], s, BufferSize))
  {
    var s := Survivors(inputs);
    PushAllIsWindow([], s, BufferSize);
    assert [] + s == s;
  }

  /**
   * The fill side of bufferStage: a fresh buffer of capacity BufferSize,
   * each input run through both filters in turn, survivors pushed.
   */
  method Fill(inputs: seq<int>) returns (buffer: RingBuffer)
    ensures fresh(buffer) && fresh(buffer.data)
    ensures buffer.Valid() && buffer.size == BufferSize
    ensures buffer.Contents() == Window(Survivors(inputs), BufferSize)
  {
    buffer := new RingBuffer(BufferSize);
    var i := 0;
    while i < |inputs|
      invariant 0 <= i <= |inputs|
      invariant fresh(buffer) && fresh(buffer.data)
      invariant buffer.Valid() && buffer.size == BufferSize
      invariant buffer.Contents() == Window(Survivors(inputs[..i]), BufferSize)
    {
      ghost var before := buffer.Contents();
      Feed(buffer, inputs[i]);
      FillStep(inputs, i, before, buffer.Contents());
      i := i + 1;
    }
    assert inputs[..i] == inputs;
  }

  /**
   * One number through the chain: the negative filter, then the
   * multiple-of-three filter, then a push if it survived both.
   */
  method Feed(buffer: RingBuffer, n: int)
    requires buffer.Valid() && buffer.size == BufferSize
    modifies buffer, buffer.data
    ensures buffer.Valid() && buffer.size == BufferSize && buffer.data == old(buffer.data)
    ensures buffer.Contents() ==
      if PassesNegativeFilter(n) && PassesMultipleOfThreeFilter(n)
      then Pushed(old(buffer.Contents()), n, BufferSize) else old(buffer.Contents())
  {
    if PassesNegativeFilter(n) {
      if PassesMultipleOfThreeFilter(n) {
        buffer.Push(n);
      }
    }
  }

  /** The fill loop followed by one flush. */
  method FillAndFlush(inputs: seq<int>) returns (batch: Option<seq<int>>)
    ensures batch == FlushAfter(inputs)
  {
    var buffer := Fill(inputs);
    batch := buffer.Get();
  }

  /** Two flushes in a row: the second finds the buffer drained and yields no data. */
  method FlushTwice(inputs: seq<int>) returns (first: Option<seq<int>>, second: Option<seq<int>>)
    ensures first == FlushAfter(inputs)
    ensures second == None
  {
    var buffer := Fill(inputs);
    first := buffer.Get();
    second := buffer.Get();
  }

  /** The fill loop's invariant survives one more input. */
  lemma {:induction false} FillStep(inputs: seq<int>, i: int, before: seq<int>, after: seq<int>)
    requires 0 <= i < |inputs|
    requires before == Window(Survivors(inputs[..i]), BufferSize)
    requires after ==
      if PassesNegativeFilter(inputs[i]) && PassesMultipleOfThreeFilter(inputs[i])
      then Pushed(before, inputs[i], BufferSize) else before
    ensures after == Window(Survivors(inputs[..i + 1]), BufferSize)
  {
    assert inputs[..i + 1] == inputs[..i] + [inputs[i]];
    SurvivorsSnoc(inputs[..i], inputs[i]);
    WindowSnoc(Survivors(inputs[..i]), inputs[i], BufferSize);
  }

  /** One more input reaches the buffer exactly when it passes both filters. */
  lemma {:induction false} SurvivorsSnoc(xs: seq<int>, n: int)
    ensures Survivors(xs + [n]) ==
      if PassesNegativeFilter(n) && PassesMultipleOfThreeFilter(n)
      then Survivors(xs) + [n] else Survivors(xs)
  {
    FilterAppend(PassesNegativeFilter, xs, [n]);
    FilterAppend(PassesMultipleOfThreeFilter, NegativeStage(xs), NegativeStage([n]));
  }

  /**
   * End to end: a flush yields no data exactly when no input is a positive
   * multiple of three; otherwise it yields those numbers in arrival order,
   * and of them only the last BufferSize.
   */
  lemma {:induction false} FlushIsLastPositiveMultiplesOfThree(inputs: seq<int>)
    ensures FlushAfter(inputs) == None <==> Filter(IsPositiveMultipleOfThree, inputs) == []
    ensures FlushAfter(inputs).Some? ==>
      var kept := Filter(IsPositiveMultipleOfThree, inputs);
      var batch := FlushAfter(inputs).value;
      |batch| == Min(|kept|, BufferSize) && batch == kept[|kept| - |batch|..]
  {
    StagesCompose(inputs);
  }

  /** Inputs [-5, 3, 9, 0, 6] flush as [3, 9, 6]. */
  lemma ScenarioFiltersThenFlush()
    ensures FlushAfter([-5, 3, 9, 0, 6]) == Some([3, 9, 6])
  {
    StagesCompose([-5, 3, 9, 0, 6]);
    ScenarioSurvivors();
  }

  /** The two filters in series keep 3, 9 and 6 of the scenario inputs. */
  lemma ScenarioSurvivors()
    ensures Filter(IsPositiveMultipleOfThree, [-5, 3, 9, 0, 6]) == [3, 9, 6]
  {
  }

  /**
   * Twelve multiples of three 3, 6, ..., 36 in one interval: the flush
   * has evicted 3 and 6 and yields 9, 12, ..., 36 in arrival order.
   */
  lemma ScenarioOverflowEvictsOldest()
    ensures FlushAfter(seq(12, i => 3 * (i + 1))) == Some(seq(10, i => 3 * (i + 3)))
  {
    var xs := seq(12, i => 3 * (i + 1));
    assert forall i :: 0 <= i < |xs| ==> IsPositiveMultipleOfThree(xs[i]);
    AllSurvive(xs);
    assert Window(xs, BufferSize) == seq(10, i => 3 * (i + 3));
  }

  /** A stream of positive multiples of three reaches the buffer whole. */
  lemma {:induction false} AllSurvive(xs: seq<int>)
    requires forall i :: 0 <= i < |xs| ==> IsPositiveMultipleOfThree(xs[i])
    ensures Survivors(xs) == xs
  {
    StagesCompose(xs);
    AllKept(xs);
  }

  /** A stream of positive multiples of three is kept whole by their conjunction. */
  lemma {:induction false} AllKept(xs: seq<int>)
    requires forall i :: 0 <= i < |xs| ==> IsPositiveMultipleOfThree(xs[i])
    ensures Filter(IsPositiveMultipleOfThree, xs) == xs
  {
    if xs != [] {
      AllKept(xs[1..]);
    }
  }
}
