/**
 * The pipeline stages of the package: the tokenizer stage, the batcher, the
 * function mapper, the context windower and the two preset compositions.
 * Every stage is a Python generator; here a stream is a finite sequence, and
 * a stage that can raise produces a `Run`: what it yielded before the first
 * exception, and that exception.
 */
module Generator {
  import opened Outcomes
  import opened Tensors

  // ---------------------------------------------------------------------------
  // BatchGenerator
  // ---------------------------------------------------------------------------

  /**
   * The batch size the accumulator loop actually uses: it yields as soon as
   * `len(batch) < batch_size` fails, which for `batch_size <= 1` is after
   * every item.
   */
  function EffectiveSize(batchSize: int): (k: nat)
    ensures k >= 1
    ensures batchSize >= 1 ==> k == batchSize
  {
    if batchSize >= 1 then batchSize else 1
  }

  /** Consecutive full chunks of `k` items, front to back. */
  function FullBatches<T>(items: seq<T>, k: nat): seq<seq<T>>
    requires k >= 1
    decreases |items|
  {
    if |items| < k then [] else [items[..k]] + FullBatches(items[k..], k)
  }

  /** The fewer than `k` items left over after the full chunks. */
  function Residual<T>(items: seq<T>, k: nat): (rest: seq<T>)
    requires k >= 1
    ensures |rest| < k && |rest| <= |items|
    decreases |items|
  {
    if |items| < k then items else Residual(items[k..], k)
  }

  function Concat<T>(parts: seq<seq<T>>): seq<T>
    decreases |parts|
  {
    if parts == [] then [] else parts[0] + Concat(parts[1..])
  }

  /** What `BatchGenerator(items, batch_size, allow_residual).generate()` yields. */
  function Batches<T>(items: seq<T>, batchSize: int, allowResidual: bool): seq<seq<T>>
  {
    var k := EffectiveSize(batchSize);
    var rest := Residual(items, k);
    if allowResidual && rest != [] then FullBatches(items, k) + [rest] else FullBatches(items, k)
  }

  lemma ConcatAppend<T>(parts: seq<seq<T>>, last: seq<T>)
    ensures Concat(parts + [last]) == Concat(parts) + last
    decreases |parts|
  {
    if parts != [] {
      assert (parts + [last])[1..] == parts[1..] + [last];
      ConcatAppend(parts[1..], last);
    }
  }

  /** One full chunk in front of a tail is cut off unchanged. */
  lemma ChunkOfPrefix<T>(chunk: seq<T>, tail: seq<T>, k: nat)
    requires k >= 1 && |chunk| == k
    ensures FullBatches(chunk + tail, k) == [chunk] + FullBatches(tail, k)
    ensures Residual(chunk + tail, k) == Residual(tail, k)
  {
    assert (chunk + tail)[..k] == chunk;
    assert (chunk + tail)[k..] == tail;
  }

  /** Full chunks in front of a tail are cut off unchanged. */
  lemma {:induction false} ChunksOfPrefix<T>(done: seq<seq<T>>, tail: seq<T>, k: nat)
    requires k >= 1
    requires forall j :: 0 <= j < |done| ==> |done[j]| == k
    ensures FullBatches(Concat(done) + tail, k) == done + FullBatches(tail, k)
    ensures Residual(Concat(done) + tail, k) == Residual(tail, k)
    decreases |done|
  {
    if done == [] {
      assert Concat(done) + tail == tail;
    } else {
      var rest := done[1..];
      var inner := Concat(rest) + tail;
      assert [done[0]] + rest == done;
      ConcatCons(done[0], rest);
      assert Concat(done) + tail == done[0] + inner;
      ChunksOfPrefix(rest, tail, k);
      ChunkOfPrefix(done[0], inner, k);
    }
  }

  lemma ConcatCons<T>(head: seq<T>, parts: seq<seq<T>>)
    ensures Concat([head] + parts) == head + Concat(parts)
  {
    assert ([head] + parts)[1..] == parts;
  }

  /** Splitting off the full chunks and the residual gives back the input. */
  lemma {:induction false} FullBatchesRebuild<T>(items: seq<T>, k: nat)
    requires k >= 1
    ensures Concat(FullBatches(items, k)) + Residual(items, k) == items
    decreases |items|
  {
    if |items| >= k {
      var tail := items[k..];
      FullBatchesRebuild(tail, k);
      ConcatCons(items[..k], FullBatches(tail, k));
      assert items[..k] + tail == items;
    }
  }

  /** The input holds `k` items per full chunk plus the residual. */
  lemma {:induction false} FullBatchesCount<T>(items: seq<T>, k: nat)
    requires k >= 1
    ensures |items| == k * |FullBatches(items, k)| + |Residual(items, k)|
    decreases |items|
  {
    if |items| >= k {
      var tail := items[k..];
      FullBatchesCount(tail, k);
      var m := |FullBatches(tail, k)|;
      assert |FullBatches(items, k)| == m + 1;
      assert k * (m + 1) == k * m + k;
    }
  }

  /** Every full chunk has exactly `k` items. */
  lemma {:induction false} FullBatchesSized<T>(items: seq<T>, k: nat)
    requires k >= 1
    ensures forall j :: 0 <= j < |FullBatches(items, k)| ==> |FullBatches(items, k)[j]| == k
    decreases |items|
  {
    if |items| >= k {
      FullBatchesSized(items[k..], k);
    }
  }

  /**
   * Every yielded batch is non-empty and at most `k` long; all but the last
   * hold exactly `k` items. With `allow_residual` the batches concatenate to
   * the whole input; without it they concatenate to the input minus its
   * residual, a prefix whose length is a multiple of `k`.
   */
  lemma BatchesShape<T>(items: seq<T>, batchSize: int, allowResidual: bool)
    ensures var bs := Batches(items, batchSize, allowResidual);
      var k := EffectiveSize(batchSize);
      && (forall j :: 0 <= j < |bs| ==> 1 <= |bs[j]| <= k)
      && (forall j :: 0 <= j < |bs| - 1 ==> |bs[j]| == k)
      && (allowResidual ==> Concat(bs) == items)
      && (!allowResidual ==> Concat(bs) == items[..|items| - |Residual(items, k)|])
      && (!allowResidual ==> |Concat(bs)| == k * |bs| && |items| - |Concat(bs)| < k)
  {
    var k := EffectiveSize(batchSize);
    FullBatchesRebuild(items, k);
    FullBatchesCount(items, k);
    FullBatchesSized(items, k);
    var full, rest := FullBatches(items, k), Residual(items, k);
    if allowResidual && rest != [] {
      ConcatAppend(full, rest);
    }
    assert items[..|items| - |rest|] == Concat(full);
  }

  /**
   * `BatchGenerator.generate`: appends each item to the current batch, yields
   * and resets it when it reaches `batch_size`, and yields what is left at the
   * end only when residual batches are allowed.
   */
  method BatchGenerate<T>(items: seq<T>, batchSize: int, allowResidual: bool) returns (batches: seq<seq<T>>)
    ensures batches == Batches(items, batchSize, allowResidual)
  {
    ghost var k := EffectiveSize(batchSize);
    batches := [];
    var batch: seq<T> := [];
    var i := 0;
    while i < |items|
      invariant 0 <= i <= |items|
      invariant items[..i] == Concat(batches) + batch
      invariant forall j :: 0 <= j < |batches| ==> |batches[j]| == k
      invariant |batch| < k
    {
      batch := batch + [items[i]];
      assert items[..i + 1] == items[..i] + [items[i]];
      i := i + 1;
      if |batch| >= batchSize {
        ConcatAppend(batches, batch);
        batches := batches + [batch];
        batch := [];
      }
    }
    assert items == items[..i];
    ChunksOfPrefix(batches, batch, k);
    assert FullBatches(batch, k) == [] && Residual(batch, k) == batch;
    assert batches + [] == batches;
    if allowResidual && batch != [] {
      batches := batches + [batch];
    }
  }

  // ---------------------------------------------------------------------------
  // SentenceWordTokenizer
  // ---------------------------------------------------------------------------

  /** Whether a sentence of `n` words passes the `max_length` filter. */
  predicate Fits(n: nat, maxLength: Option<int>) {
    maxLength.None? || n <= maxLength.value
  }

  /**
   * `SentenceWordTokenizer.generate`: each sentence's word list, in order,
   * skipping those with more than `max_length` words.
   */
  function Tokenize(sents: seq<string>, maxLength: Option<int>, wordIterator: string -> seq<string>): (r: seq<seq<string>>)
    ensures forall j :: 0 <= j < |r| ==> Fits(|r[j]|, maxLength)
    decreases |sents|
  {
    if sents == [] then []
    else
      var words := wordIterator(sents[0]);
      var rest := Tokenize(sents[1..], maxLength, wordIterator);
      if Fits(|words|, maxLength) then [words] + rest else rest
  }

  /**
   * The tokenizer treats sentences one at a time: on one sentence it yields
   * its words if they fit and nothing otherwise.
   */
  lemma TokenizeOne(sent: string, maxLength: Option<int>, wordIterator: string -> seq<string>)
    ensures Tokenize([sent], maxLength, wordIterator) ==
      if Fits(|wordIterator(sent)|, maxLength) then [wordIterator(sent)] else []
  {
    assert [sent][1..] == [];
  }

  /**
   * On a concatenation of sentence streams the tokenizer yields the two
   * outputs one after the other, so the order is kept.
   */
  lemma {:induction false} TokenizeAppend(a: seq<string>, b: seq<string>, maxLength: Option<int>, wordIterator: string -> seq<string>)
    ensures Tokenize(a + b, maxLength, wordIterator) ==
      Tokenize(a, maxLength, wordIterator) + Tokenize(b, maxLength, wordIterator)
    decreases |a|
  {
    if a == [] {
      assert a + b == b;
    } else {
      assert (a + b)[0] == a[0];
      assert (a + b)[1..] == a[1..] + b;
      TokenizeAppend(a[1..], b, maxLength, wordIterator);
    }
  }

  /** Without `max_length` every sentence is kept, in order. */
  lemma {:induction false} TokenizeKeepsAll(sents: seq<string>, wordIterator: string -> seq<string>)
    ensures |Tokenize(sents, None, wordIterator)| == |sents|
    ensures forall i :: 0 <= i < |sents| ==> Tokenize(sents, None, wordIterator)[i] == wordIterator(sents[i])
    decreases |sents|
  {
    if sents != [] {
      TokenizeKeepsAll(sents[1..], wordIterator);
      var r := Tokenize(sents, None, wordIterator);
      forall i | 1 <= i < |sents| ensures r[i] == wordIterator(sents[i]) {
        assert sents[1..][i - 1] == sents[i];
      }
    }
  }

  // ---------------------------------------------------------------------------
  // FunctionMapper
  // ---------------------------------------------------------------------------

  /**
   * `FunctionMapper.generate` over a callable that may raise: yields
   * `func(item)` for each item in order and stops at the first exception.
   */
  function MapRun<A, B>(items: seq<A>, func: A -> Result<B>): (r: Run<B>)
    ensures |r.items| <= |items|
    ensures r.failure.None? ==> |r.items| == |items|
    ensures r.failure.Some? ==> |r.items| < |items|
    decreases |items|
  {
    if items == [] then Run([], None)
    else
      match func(items[0])
      case Err(e) => Run([], Some(e))
      case Ok(v) =>
        var rest := MapRun(items[1..], func);
        Run([v] + rest.items, rest.failure)
  }

  /**
   * The mapper yields `func(item)` for every item before the first that
   * raises, and the exception it reports is the one that item raised; with no
   * exception every item is mapped.
   */
  lemma {:induction false} MapRunLaw<A, B>(items: seq<A>, func: A -> Result<B>)
    ensures var r := MapRun(items, func);
      && (forall i :: 0 <= i < |r.items| ==> func(items[i]) == Ok(r.items[i]))
      && (r.failure.Some? ==> func(items[|r.items|]) == Err(r.failure.value))
    decreases |items|
  {
    if items != [] && func(items[0]).Ok? {
      MapRunLaw(items[1..], func);
      var r := MapRun(items, func);
      forall i | 1 <= i < |r.items| ensures func(items[i]) == Ok(r.items[i]) {
        assert items[1..][i - 1] == items[i];
      }
    }
  }

  /** Mapping a concatenation: the second part is reached only if the first raised nothing. */
  lemma {:induction false} MapRunAppend<A, B>(a: seq<A>, b: seq<A>, func: A -> Result<B>)
    ensures MapRun(a + b, func) ==
      if MapRun(a, func).failure.Some? then MapRun(a, func)
      else Run(MapRun(a, func).items + MapRun(b, func).items, MapRun(b, func).failure)
    decreases |a|
  {
    if a == [] {
      assert a + b == b;
    } else {
      assert (a + b)[0] == a[0];
      assert (a + b)[1..] == a[1..] + b;
      match func(a[0])
      case Err(_) =>
      case Ok(v) =>
        MapRunAppend(a[1..], b, func);
        var tailRun := MapRun(a[1..], func);
        assert MapRun(a + b, func) == Run([v] + MapRun(a[1..] + b, func).items, MapRun(a[1..] + b, func).failure);
        assert MapRun(a, func) == Run([v] + tailRun.items, tailRun.failure);
        if tailRun.failure.None? {
          assert [v] + (tailRun.items + MapRun(b, func).items) == ([v] + tailRun.items) + MapRun(b, func).items;
        }
    }
  }

  /** A stage applied to an upstream run: it maps what arrived, then re-raises the upstream's exception. */
  function Then<A, B>(upstream: Run<A>, func: A -> Result<B>): (r: Run<B>)
    ensures r.failure.None? <==> upstream.failure.None? && MapRun(upstream.items, func).failure.None?
    ensures r.items == MapRun(upstream.items, func).items
    ensures MapRun(upstream.items, func).failure.Some? ==> r.failure == MapRun(upstream.items, func).failure
    ensures MapRun(upstream.items, func).failure.None? ==> r.failure == upstream.failure
  {
    var mapped := MapRun(upstream.items, func);
    if mapped.failure.Some? then mapped else Run(mapped.items, upstream.failure)
  }

  // ---------------------------------------------------------------------------
  // ContextDataGenerator
  // ---------------------------------------------------------------------------

  /**
   * One tuple the context generator yields: the input rows and lengths, and
   * for each input row the window of neighbouring rows and their lengths.
   * Windows are stored row by row (the `batch_first=True` layout);
   * `batchFirst` records whether the tensors would be laid out that way or
   * with the first two axes exchanged.
   */
  datatype ContextBatch = ContextBatch(
    input: seq<seq<int>>,
    inputLens: seq<int>,
    context: seq<seq<seq<int>>>,
    contextLens: seq<seq<int>>,
    batchFirst: bool)

  /** Python's `s[start:stop]` for a non-negative start. */
  function PySlice<T>(s: seq<T>, start: nat, stop: int): (r: seq<T>)
    ensures 0 <= start <= stop <= |s| ==> r == s[start..stop]
  {
    var hi := if stop < 0 then (if stop + |s| < 0 then 0 else stop + |s|)
              else if stop > |s| then |s| else stop;
    var lo := if start > |s| then |s| else start;
    if lo >= hi then [] else s[lo..hi]
  }

  /**
   * The `not predict_self` branch: keep the first `nBef` offsets and the last
   * `nAft` offsets of each window of `nBef + nAft + 1`.
   */
  function DropCentre<T>(windows: seq<seq<T>>, nBef: nat, nAft: nat): (r: seq<seq<T>>)
    requires forall i :: 0 <= i < |windows| ==> |windows[i]| == nBef + nAft + 1
    ensures |r| == |windows|
    ensures forall i :: 0 <= i < |r| ==> |r[i]| == nBef + nAft
    ensures forall i, k :: 0 <= i < |r| && 0 <= k < nBef + nAft ==> r[i][k] == windows[i][SourceOffset(k, nBef, false)]
  {
    var offset := nBef + nAft + 1;
    if nBef != 0 && nAft != 0 then
      seq(|windows|, i requires 0 <= i < |windows| => windows[i][..nBef] + windows[i][offset - nAft..])
    else if nBef != 0 then
      seq(|windows|, i requires 0 <= i < |windows| => windows[i][..nBef])
    else
      seq(|windows|, i requires 0 <= i < |windows| => windows[i][offset - nAft..])
  }

  /** The window of `offset` consecutive entries starting at each of the first `count` positions. */
  function Windows<T>(s: seq<T>, count: nat, offset: nat): (w: seq<seq<T>>)
    requires count + offset <= |s| + 1 && offset >= 1
    ensures |w| == count
    ensures forall i :: 0 <= i < count ==> |w[i]| == offset
    ensures forall i, j :: 0 <= i < count && 0 <= j < offset ==> w[i][j] == s[i + j]
  {
    seq(count, i requires 0 <= i < count => s[i..i + offset])
  }

  /**
   * The windows of `n` input rows over `s`: the `n_bef + n_aft + 1`
   * consecutive entries starting at each position, with the centre dropped
   * unless `predict_self`. Entry `k` of window `i` is original entry
   * `i + k`, skipping `i + n_bef` when the centre is dropped.
   */
  function ContextWindows<T>(s: seq<T>, n: nat, nBef: nat, nAft: nat, predictSelf: bool): (w: seq<seq<T>>)
    requires n + nBef + nAft <= |s|
    ensures |w| == n
    ensures forall i :: 0 <= i < n ==> |w[i]| == WindowSize(nBef, nAft, predictSelf)
    ensures forall i, k :: 0 <= i < n && 0 <= k < WindowSize(nBef, nAft, predictSelf) ==>
      w[i][k] == s[i + SourceOffset(k, nBef, predictSelf)]
  {
    var windows := Windows(s, n, nBef + nAft + 1);
    if predictSelf then windows else DropCentre(windows, nBef, nAft)
  }

  /**
   * `ContextDataGenerator.generate` on one batch. With no context on either
   * side the whole batch is the input and each row is its own context. Else
   * the input is rows `[n_bef, B - n_aft)`, each gets the window of original
   * rows `r .. r + n_bef + n_aft`, and the centre is dropped unless
   * `predict_self`; a batch too small for one window concatenates an empty
   * list of tensors, which raises.
   */
  function ContextOf(batch: Encoded, nBef: nat, nAft: nat, predictSelf: bool, batchFirst: bool): (r: Result<ContextBatch>)
    ensures r.Err? <==> nBef + nAft > 0 && |batch.rows| <= nBef + nAft
    ensures r.Err? ==> r.error == EmptyConcat
    ensures r.Ok? ==> r.value.batchFirst == batchFirst && |r.value.input| == |r.value.context| == |r.value.contextLens|
  {
    var size := |batch.lens|;
    var input := PySlice(batch.rows, nBef, |batch.rows| - nAft);
    var inputLens := PySlice(batch.lens, nBef, |batch.rows| - nAft);
    if nBef != 0 || nAft != 0 then
      var subSize := size - nBef - nAft;
      if subSize <= 0 then Err(EmptyConcat)
      else
        Ok(ContextBatch(input, inputLens,
          ContextWindows(batch.rows, subSize, nBef, nAft, predictSelf),
          ContextWindows(batch.lens, subSize, nBef, nAft, predictSelf),
          batchFirst))
    else
      Ok(ContextBatch(input, inputLens,
        seq(size, i requires 0 <= i < size => [batch.rows[i]]),
        seq(size, i requires 0 <= i < size => [batch.lens[i]]),
        batchFirst))
  }

  /** Which original offset of the full window ends up at position `k` of the output window. */
  function SourceOffset(k: nat, nBef: nat, predictSelf: bool): (o: nat)
    ensures !predictSelf ==> o != nBef
  {
    if predictSelf || k < nBef then k else k + 1
  }

  /** Size of the output window. */
  function WindowSize(nBef: nat, nAft: nat, predictSelf: bool): nat {
    nBef + nAft + (if predictSelf then 1 else 0)
  }

  /**
   * The windowing law when some context is asked for. The batch is accepted
   * exactly when it has more than `n_bef + n_aft` rows; a smaller batch
   * raises at the concatenation. The input is rows `[n_bef, B - n_aft)`.
   * Input row `r` gets a window of `n_bef + n_aft` (+1 with `predict_self`)
   * rows whose entry `k` is original row `r + k`, skipping the centre
   * `r + n_bef` (input row `r` itself) when `predict_self` is off; lengths
   * follow their rows.
   */
  lemma ContextWindowLaw(batch: Encoded, nBef: nat, nAft: nat, predictSelf: bool, batchFirst: bool)
    requires nBef + nAft > 0
    ensures var r := ContextOf(batch, nBef, nAft, predictSelf, batchFirst);
      && (r.Ok? <==> |batch.rows| > nBef + nAft)
      && (r.Err? ==> r.error == EmptyConcat)
    ensures var r := ContextOf(batch, nBef, nAft, predictSelf, batchFirst);
      var n := |batch.rows| - nBef - nAft;
      var w := WindowSize(nBef, nAft, predictSelf);
      r.Ok? ==>
        && r.value.batchFirst == batchFirst
        && r.value.input == batch.rows[nBef..|batch.rows| - nAft]
        && r.value.inputLens == batch.lens[nBef..|batch.rows| - nAft]
        && |r.value.context| == n && |r.value.contextLens| == n
        && (forall i :: 0 <= i < n ==> |r.value.context[i]| == w && |r.value.contextLens[i]| == w)
        && (forall i, k :: 0 <= i < n && 0 <= k < w ==>
              r.value.context[i][k] == batch.rows[i + SourceOffset(k, nBef, predictSelf)]
              && r.value.contextLens[i][k] == batch.lens[i + SourceOffset(k, nBef, predictSelf)])
  {
  }

  /**
   * With no context on either side, whatever `predict_self` says, the input
   * is the whole batch and each row's context is a window holding just that
   * row.
   */
  lemma ContextWithoutNeighbours(batch: Encoded, predictSelf: bool, batchFirst: bool)
    ensures var r := ContextOf(batch, 0, 0, predictSelf, batchFirst);
      && r.Ok?
      && r.value.input == batch.rows && r.value.inputLens == batch.lens
      && |r.value.context| == |batch.rows| && |r.value.contextLens| == |batch.rows|
      && (forall i :: 0 <= i < |batch.rows| ==> r.value.context[i] == [batch.rows[i]] && r.value.contextLens[i] == [batch.lens[i]])
  {
    assert batch.rows[0..|batch.rows|] == batch.rows;
    assert batch.lens[0..|batch.rows|] == batch.lens;
  }

  /** `ContextDataGenerator.generate` over the stream of preprocessed batches. */
  function ContextGenerate(upstream: Run<Encoded>, nBef: nat, nAft: nat, predictSelf: bool, batchFirst: bool): (r: Run<ContextBatch>)
    ensures |r.items| <= |upstream.items|
    ensures forall j :: 0 <= j < |r.items| ==> ContextOf(upstream.items[j], nBef, nAft, predictSelf, batchFirst) == Ok(r.items[j])
    ensures r.failure.None? <==>
      upstream.failure.None? && (nBef + nAft == 0 || forall j :: 0 <= j < |upstream.items| ==> |upstream.items[j].rows| > nBef + nAft)
    ensures r.failure.None? ==> |r.items| == |upstream.items|
    ensures r.failure.Some? ==>
      || (|r.items| < |upstream.items| &&
          ContextOf(upstream.items[|r.items|], nBef, nAft, predictSelf, batchFirst) == Err(r.failure.value))
      || (|r.items| == |upstream.items| && r.failure == upstream.failure)
  {
    var f := (b: Encoded) => ContextOf(b, nBef, nAft, predictSelf, batchFirst);
    MapRunLaw(upstream.items, f);
    Then(upstream, (b: Encoded) => ContextOf(b, nBef, nAft, predictSelf, batchFirst))
  }

  // ---------------------------------------------------------------------------
  // Preset compositions
  // ---------------------------------------------------------------------------

  /**
   * `create_generator_ae`: tokenizer, batcher, then the preprocessor mapped
   * over the batches. (The memory pinner that follows by default does not
   * change values and is not part of this model.)
   */
  function CreateGeneratorAE<U>(sents: seq<string>, batchSize: int, preprocessor: seq<seq<string>> -> Result<U>,
                                allowResidual: bool, maxLength: Option<int>, wordIterator: string -> seq<string>): (r: Run<U>)
    ensures var batches := Batches(Tokenize(sents, maxLength, wordIterator), batchSize, allowResidual);
      && |r.items| <= |batches|
      && (r.failure.None? ==> |r.items| == |batches|)
      && (forall j :: 0 <= j < |r.items| ==> preprocessor(batches[j]) == Ok(r.items[j]))
      && (r.failure.Some? ==> |r.items| < |batches| && preprocessor(batches[|r.items|]) == Err(r.failure.value))
  {
    MapRunLaw(Batches(Tokenize(sents, maxLength, wordIterator), batchSize, allowResidual), preprocessor);
    MapRun(Batches(Tokenize(sents, maxLength, wordIterator), batchSize, allowResidual), preprocessor)
  }

  /** What `create_generator_st` returns: the pinned context stream, or the preprocessed batches. */
  datatype SkipThoughtOutput =
    | ContextStream(contexts: Run<ContextBatch>)
    | EncodedStream(encoded: Run<Encoded>)

  /**
   * `create_generator_st`. The context generator is called positionally as
   * `ContextDataGenerator(prep_batches, n_before, n_after, ...)`, which binds
   * `batch_first := n_before`, `n_before := n_after` and leaves `n_after` at
   * its default of 1. Without pinning the function returns the preprocessed
   * batches and the context stage is never pulled.
   */
  function CreateGeneratorST(sents: seq<string>, batchSize: int, preprocessor: seq<seq<string>> -> Result<Encoded>,
                             pinMemory: bool, allowResidual: bool, maxLength: Option<int>,
                             nBefore: nat, nAfter: nat, predictSelf: bool,
                             wordIterator: string -> seq<string>): (out: SkipThoughtOutput)
    ensures out.ContextStream? <==> pinMemory
    ensures !pinMemory ==> out.encoded == CreateGeneratorAE(sents, batchSize, preprocessor, allowResidual, maxLength, wordIterator)
    ensures pinMemory ==>
      out.contexts == ContextGenerate(CreateGeneratorAE(sents, batchSize, preprocessor, allowResidual, maxLength, wordIterator),
                                      nAfter, 1, predictSelf, nBefore != 0)
  {
    var prepBatches := MapRun(Batches(Tokenize(sents, maxLength, wordIterator), batchSize, allowResidual), preprocessor);
    var contextData := ContextGenerate(prepBatches, nAfter, 1, predictSelf, nBefore != 0);
    if pinMemory then ContextStream(contextData) else EncodedStream(prepBatches)
  }

  /**
   * What the skip-thought preset really computes. Without pinning it is the
   * autoencoder preset. With pinning every window is cut with `n_after`
   * rows before and exactly one row after, whatever `n_before` is, and
   * `n_before` only decides the tensor layout.
   */
  lemma SkipThoughtWiring(sents: seq<string>, batchSize: int, preprocessor: seq<seq<string>> -> Result<Encoded>,
                          pinMemory: bool, allowResidual: bool, maxLength: Option<int>,
                          nBefore: nat, nAfter: nat, predictSelf: bool,
                          wordIterator: string -> seq<string>)
    ensures var out := CreateGeneratorST(sents, batchSize, preprocessor, pinMemory, allowResidual, maxLength,
                                         nBefore, nAfter, predictSelf, wordIterator);
      var prep := CreateGeneratorAE(sents, batchSize, preprocessor, allowResidual, maxLength, wordIterator);
      && (!pinMemory ==> out == EncodedStream(prep))
      && (pinMemory ==> out.ContextStream?)
      && (pinMemory ==> forall j :: 0 <= j < |out.contexts.items| ==>
            && out.contexts.items[j].batchFirst == (nBefore != 0)
            && (forall i :: 0 <= i < |out.contexts.items[j].context| ==>
                  |out.contexts.items[j].context[i]| == WindowSize(nAfter, 1, predictSelf)))
  {
    var out := CreateGeneratorST(sents, batchSize, preprocessor, pinMemory, allowResidual, maxLength,
                                 nBefore, nAfter, predictSelf, wordIterator);
    var prep := CreateGeneratorAE(sents, batchSize, preprocessor, allowResidual, maxLength, wordIterator);
    if pinMemory {
      var f := (b: Encoded) => ContextOf(b, nAfter, 1, predictSelf, nBefore != 0);
      var mapped := MapRun(prep.items, f);
      MapRunLaw(prep.items, f);
      assert out.contexts.items == mapped.items;
      forall j | 0 <= j < |out.contexts.items|
        ensures out.contexts.items[j].batchFirst == (nBefore != 0)
        ensures forall i :: 0 <= i < |out.contexts.items[j].context| ==>
                  |out.contexts.items[j].context[i]| == WindowSize(nAfter, 1, predictSelf)
      {
        assert f(prep.items[j]) == Ok(out.contexts.items[j]);
        ContextWindowLaw(prep.items[j], nAfter, 1, predictSelf, nBefore != 0);
      }
    }
  }
}
