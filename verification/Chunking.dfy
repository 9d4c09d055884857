// Cutting a stream into batches: the pending batch goes out before it would no longer fit.
module Chunking {
  // The batches flushed so far and what is still pending.
  datatype Buffer<T> = Buffer(batches: seq<seq<T>>, pending: seq<T>)

  function Append<T>(fits: seq<T> -> bool, b: Buffer<T>, x: T): Buffer<T> {
    if |b.pending| > 0 && !fits(b.pending + [x]) then Buffer(b.batches + [b.pending], [x])
    else Buffer(b.batches, b.pending + [x])
  }

  function AppendAll<T>(fits: seq<T> -> bool, b: Buffer<T>, xs: seq<T>): Buffer<T>
    decreases |xs|
  {
    if |xs| == 0 then b else AppendAll(fits, Append(fits, b, xs[0]), xs[1..])
  }

  // ---------------------------------------------------------------- nothing is lost

  function Flat<T>(batches: seq<seq<T>>): seq<T> {
    if |batches| == 0 then [] else Flat(batches[..|batches| - 1]) + batches[|batches| - 1]
  }

  // Everything the buffer ever held, in order.
  function Contents<T>(b: Buffer<T>): seq<T> {
    Flat(b.batches) + b.pending
  }

  lemma FlatSnoc<T>(batches: seq<seq<T>>, last: seq<T>)
    ensures Flat(batches + [last]) == Flat(batches) + last
  {
    assert (batches + [last])[..|batches|] == batches;
  }

  lemma AppendKeepsTheOrder<T>(fits: seq<T> -> bool, b: Buffer<T>, x: T)
    ensures Contents(Append(fits, b, x)) == Contents(b) + [x]
  {
    FlatSnoc(b.batches, b.pending);
    assert Flat(b.batches) + b.pending + [x] == Flat(b.batches) + (b.pending + [x]);
  }

  lemma Regroup<T>(a: seq<T>, b: seq<T>, c: seq<T>)
    ensures a + b + c == a + (b + c)
  {}

  // Nothing is lost, repeated or moved by chunking.
  lemma {:induction false} ChunkingKeepsTheOrder<T>(fits: seq<T> -> bool, b: Buffer<T>, xs: seq<T>)
    ensures Contents(AppendAll(fits, b, xs)) == Contents(b) + xs
    decreases |xs|
  {
    if |xs| > 0 {
      AppendKeepsTheOrder(fits, b, xs[0]);
      ChunkingKeepsTheOrder(fits, Append(fits, b, xs[0]), xs[1..]);
      Regroup(Contents(b), [xs[0]], xs[1..]);
      assert [xs[0]] + xs[1..] == xs;
    }
  }

  // ---------------------------------------------------------------- every batch is admissible

  ghost predicate EachAlone<T>(ok: seq<T> -> bool, xs: seq<T>) {
    forall i :: 0 <= i < |xs| ==> ok([xs[i]])
  }

  ghost predicate AllFrom<T>(ok: seq<T> -> bool, batches: seq<seq<T>>, from: nat) {
    forall i :: from <= i < |batches| ==> ok(batches[i])
  }

  // Whatever holds of fitting batches and of each element alone holds of every batch.
  lemma {:induction false} BatchesStay<T(!new)>(
      fits: seq<T> -> bool, ok: seq<T> -> bool, b: Buffer<T>, xs: seq<T>, from: nat)
    requires (forall batch :: fits(batch) ==> ok(batch)) && EachAlone(ok, xs)
    requires AllFrom(ok, b.batches, from) && (|b.pending| > 0 ==> ok(b.pending))
    ensures AllFrom(ok, AppendAll(fits, b, xs).batches, from)
    ensures |AppendAll(fits, b, xs).pending| > 0 ==> ok(AppendAll(fits, b, xs).pending)
    ensures |AppendAll(fits, b, xs).batches| >= |b.batches|
    decreases |xs|
  {
    if |xs| > 0 {
      assert |b.pending| == 0 ==> b.pending + [xs[0]] == [xs[0]];
      BatchesStay(fits, ok, Append(fits, b, xs[0]), xs[1..], from);
    }
  }

  // The first flush takes along what was pending before; the batches after it hold new elements only.
  lemma {:induction false} FirstFlush<T(!new)>(fits: seq<T> -> bool, ok: seq<T> -> bool, b: Buffer<T>, xs: seq<T>)
    requires (forall batch :: fits(batch) ==> ok(batch)) && EachAlone(ok, xs) && |b.pending| > 0
    ensures AllFrom(ok, AppendAll(fits, b, xs).batches, |b.batches| + 1)
    ensures |AppendAll(fits, b, xs).batches| >= |b.batches|
    ensures var after := AppendAll(fits, b, xs);
            |after.batches| > |b.batches| && |after.pending| > 0 ==> ok(after.pending)
    decreases |xs|
  {
    if |xs| > 0 {
      var next := Append(fits, b, xs[0]);
      if |next.batches| == |b.batches| {
        FirstFlush(fits, ok, next, xs[1..]);
      } else {
        BatchesStay(fits, ok, next, xs[1..], |b.batches| + 1);
      }
    }
  }

  // ---------------------------------------------------------------- no batch is cut short

  // The batch and whatever came next would not have fitted together.
  ghost predicate Full<T>(fits: seq<T> -> bool, batch: seq<T>, next: seq<T>) {
    |next| > 0 && !fits(batch + [next[0]])
  }

  // Behind batch `i`: the next batch, or what is still pending.
  function Following<T>(b: Buffer<T>, i: nat): seq<T>
    requires i < |b.batches|
  {
    if i + 1 < |b.batches| then b.batches[i + 1] else b.pending
  }

  ghost predicate FullAt<T>(fits: seq<T> -> bool, b: Buffer<T>, i: nat) {
    i < |b.batches| && Full(fits, b.batches[i], Following(b, i))
  }

  ghost predicate FullFrom<T>(fits: seq<T> -> bool, b: Buffer<T>, from: nat) {
    forall i: nat :: from <= i < |b.batches| ==> FullAt(fits, b, i)
  }

  // The buffer is never flushed early: every flushed batch was full.
  lemma {:induction false} FlushesOnlyWhenFull<T>(fits: seq<T> -> bool, b: Buffer<T>, xs: seq<T>, from: nat)
    requires FullFrom(fits, b, from)
    ensures FullFrom(fits, AppendAll(fits, b, xs), from)
    decreases |xs|
  {
    if |xs| > 0 {
      AppendStaysFull(fits, b, xs[0], from);
      FlushesOnlyWhenFull(fits, Append(fits, b, xs[0]), xs[1..], from);
    }
  }

  lemma AppendStaysFull<T>(fits: seq<T> -> bool, b: Buffer<T>, x: T, from: nat)
    requires FullFrom(fits, b, from)
    ensures FullFrom(fits, Append(fits, b, x), from)
  {
    var next := Append(fits, b, x);
    forall i: nat | from <= i < |next.batches| ensures FullAt(fits, next, i) {
      if i < |b.batches| {
        assert FullAt(fits, b, i);
        if i + 1 == |b.batches| { assert Following(next, i)[0] == b.pending[0]; }
      } else {
        assert next.batches[i] == b.pending && Following(next, i) == [x];
      }
    }
  }
}
