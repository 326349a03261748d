/**
 * The older data generator at the repository root: it splits lines on
 * whitespace, skips the overlong ones, groups the rest into full batches,
 * encodes each batch twice (with and without noise) and orders the rows of
 * each batch by decreasing length.
 */
module LegacyGeneration {
  import opened Outcomes
  import opened Words
  import opened Generator
  import opened SeqFacts

  /** The indices `0 .. n-1` in order. */
  function Range(n: nat): (r: seq<nat>)
    ensures |r| == n && forall i :: 0 <= i < n ==> r[i] == i
  {
    seq(n, i requires 0 <= i < n => i)
  }

  /** Every index points into `keys`. */
  predicate InBounds(keys: seq<int>, idx: seq<nat>) {
    forall j :: 0 <= j < |idx| ==> idx[j] < |keys|
  }

  /** The keys, read in the order of `idx`, never increase. */
  predicate SortedDesc(keys: seq<int>, idx: seq<nat>)
    requires InBounds(keys, idx)
  {
    forall i, j :: 0 <= i < j < |idx| ==> keys[idx[i]] >= keys[idx[j]]
  }

  /** `s[idx]`: the entries of `s` in the order of `idx`. */
  function Reorder<T>(s: seq<T>, idx: seq<nat>): (r: seq<T>)
    requires forall j :: 0 <= j < |idx| ==> idx[j] < |s|
    ensures |r| == |idx| && forall j :: 0 <= j < |idx| ==> r[j] == s[idx[j]]
  {
    seq(|idx|, j requires 0 <= j < |idx| => s[idx[j]])
  }

  /** Places index `k` after every index whose key is at least as large. */
  function Insert(keys: seq<int>, idx: seq<nat>, k: nat): (r: seq<nat>)
    requires k < |keys| && InBounds(keys, idx)
    ensures |r| == |idx| + 1 && InBounds(keys, r)
    ensures multiset(r) == multiset(idx) + multiset{k}
    decreases |idx|
  {
    if idx == [] || keys[idx[|idx| - 1]] >= keys[k] then idx + [k]
    else
      var init := idx[..|idx| - 1];
      assert idx == init + [idx[|idx| - 1]];
      Insert(keys, init, k) + [idx[|idx| - 1]]
  }

  /**
   * The index order `torch.sort(length, descending=True)` returns for the
   * first `n` keys; equal keys keep their original order.
   */
  function ArgSortDescending(keys: seq<int>, n: nat): (idx: seq<nat>)
    requires n <= |keys|
    ensures |idx| == n && InBounds(keys, idx)
    decreases n
  {
    if n == 0 then [] else Insert(keys, ArgSortDescending(keys, n - 1), n - 1)
  }

  /** Every key read through `idx` is at least `b`. */
  predicate AllAtLeast(keys: seq<int>, idx: seq<nat>, b: int)
    requires InBounds(keys, idx)
  {
    forall j :: 0 <= j < |idx| ==> keys[idx[j]] >= b
  }

  /** Inserting a key of at least `b` among keys of at least `b` keeps them all at least `b`. */
  lemma {:induction false} InsertAtLeast(keys: seq<int>, idx: seq<nat>, k: nat, b: int)
    requires k < |keys| && InBounds(keys, idx) && AllAtLeast(keys, idx, b) && keys[k] >= b
    ensures AllAtLeast(keys, Insert(keys, idx, k), b)
    decreases |idx|
  {
    if idx != [] && keys[idx[|idx| - 1]] < keys[k] {
      InsertAtLeast(keys, idx[..|idx| - 1], k, b);
    }
  }

  /** Inserting keeps the order sorted. */
  lemma {:induction false} InsertSorted(keys: seq<int>, idx: seq<nat>, k: nat)
    requires k < |keys| && InBounds(keys, idx) && SortedDesc(keys, idx)
    ensures SortedDesc(keys, Insert(keys, idx, k))
    decreases |idx|
  {
    if idx != [] && keys[idx[|idx| - 1]] < keys[k] {
      var init := idx[..|idx| - 1];
      var last := idx[|idx| - 1];
      SortedInit(keys, idx);
      InsertSorted(keys, init, k);
      InsertAtLeast(keys, init, k, keys[last]);
      SortedSnoc(keys, Insert(keys, init, k), last);
      InsertPastLast(keys, idx, k);
    }
  }

  /** Dropping the last index of a sorted order leaves a sorted order whose keys are all at least the dropped one. */
  lemma SortedInit(keys: seq<int>, idx: seq<nat>)
    requires idx != [] && InBounds(keys, idx) && SortedDesc(keys, idx)
    ensures InBounds(keys, idx[..|idx| - 1]) && SortedDesc(keys, idx[..|idx| - 1])
    ensures AllAtLeast(keys, idx[..|idx| - 1], keys[idx[|idx| - 1]])
  {
    var init := idx[..|idx| - 1];
    forall j | 0 <= j < |init| ensures init[j] == idx[j] {}
  }

  /** An index with a larger key than the last one is inserted before it. */
  lemma InsertPastLast(keys: seq<int>, idx: seq<nat>, k: nat)
    requires k < |keys| && InBounds(keys, idx) && idx != [] && keys[idx[|idx| - 1]] < keys[k]
    ensures InBounds(keys, idx[..|idx| - 1])
    ensures Insert(keys, idx, k) == Insert(keys, idx[..|idx| - 1], k) + [idx[|idx| - 1]]
  {
  }

  /** Appending an index whose key is at most every key so far keeps the order sorted. */
  lemma SortedSnoc(keys: seq<int>, idx: seq<nat>, x: nat)
    requires x < |keys| && InBounds(keys, idx) && SortedDesc(keys, idx) && AllAtLeast(keys, idx, keys[x])
    ensures InBounds(keys, idx + [x]) && SortedDesc(keys, idx + [x])
  {
    var r := idx + [x];
    forall i, j | 0 <= i < j < |r| ensures keys[r[i]] >= keys[r[j]] {
      if j < |idx| {
        assert r[i] == idx[i] && r[j] == idx[j];
      }
    }
  }

  /** The sort returns a rearrangement of the indices `0 .. n-1`. */
  lemma {:induction false} ArgSortPermutes(keys: seq<int>, n: nat)
    requires n <= |keys|
    ensures multiset(ArgSortDescending(keys, n)) == multiset(Range(n))
    decreases n
  {
    if n > 0 {
      var last: nat := n - 1;
      var prev := ArgSortDescending(keys, last);
      ArgSortPermutes(keys, last);
      assert multiset(ArgSortDescending(keys, n)) == multiset(prev) + multiset{last};
      RangeSnoc(last);
    }
  }

  /** One more index adds exactly that index. */
  lemma RangeSnoc(n: nat)
    ensures multiset(Range(n + 1)) == multiset(Range(n)) + multiset{n}
  {
    assert Range(n + 1) == Range(n) + [n];
  }

  /** Under the sort's index order the keys never increase. */
  lemma {:induction false} ArgSortSorted(keys: seq<int>, n: nat)
    requires n <= |keys|
    ensures SortedDesc(keys, ArgSortDescending(keys, n))
    decreases n
  {
    if n > 0 {
      ArgSortSorted(keys, n - 1);
      InsertSorted(keys, ArgSortDescending(keys, n - 1), n - 1);
    }
  }

  /** Reading through one more index appends the entry it points to. */
  lemma ReorderSnoc<T>(s: seq<T>, idx: seq<nat>, k: nat)
    requires k < |s| && forall j :: 0 <= j < |idx| ==> idx[j] < |s|
    ensures Reorder(s, idx + [k]) == Reorder(s, idx) + [s[k]]
  {
  }

  /** Reading the keys through an inserted index adds exactly the inserted key. */
  lemma {:induction false} ReorderInsert(keys: seq<int>, idx: seq<nat>, k: nat)
    requires k < |keys| && InBounds(keys, idx)
    ensures multiset(Reorder(keys, Insert(keys, idx, k))) == multiset(Reorder(keys, idx)) + multiset{keys[k]}
    decreases |idx|
  {
    if idx == [] || keys[idx[|idx| - 1]] >= keys[k] {
      ReorderSnoc(keys, idx, k);
    } else {
      var init := idx[..|idx| - 1];
      var last := idx[|idx| - 1];
      ReorderInsert(keys, init, k);
      ReorderSnoc(keys, Insert(keys, init, k), last);
      assert idx == init + [last];
      ReorderSnoc(keys, init, last);
    }
  }

  /** The sorted keys are the keys rearranged: same multiset. */
  lemma {:induction false} SortedKeysPermute(keys: seq<int>, n: nat)
    requires n <= |keys|
    ensures multiset(Reorder(keys, ArgSortDescending(keys, n))) == multiset(keys[..n])
    decreases n
  {
    if n > 0 {
      SortedKeysPermute(keys, n - 1);
      ReorderInsert(keys, ArgSortDescending(keys, n - 1), n - 1);
      PrefixSnoc(keys, n - 1);
    }
  }

  /** One batch as `DataGenerator` yields it: noisy input rows, clean target rows, lengths. */
  datatype SortedBatch = SortedBatch(input: seq<seq<int>>, target: seq<seq<int>>, length: seq<int>)

  /** `len(s) + 2` for each sentence: its words and the two markers. */
  function BatchLengths(batch: seq<seq<string>>): (lens: seq<int>)
    ensures |lens| == |batch| && forall i :: 0 <= i < |batch| ==> lens[i] == |batch[i]| + 2
  {
    seq(|batch|, i requires 0 <= i < |batch| => |batch[i]| + 2)
  }

  /**
   * The body of the batch branch of `DataGenerator.generate`: encode the
   * batch with noise (input) and without (target), sort the lengths in
   * decreasing order and pick the rows in that order. Picking a row the
   * encoder did not produce raises IndexError.
   */
  function EmitBatch(batch: seq<seq<string>>, prep: (seq<seq<string>>, bool) -> seq<seq<int>>): Result<SortedBatch>
  {
    var lengths := BatchLengths(batch);
    var inputData := prep(batch, true);
    var targetData := prep(batch, false);
    var idx := ArgSortDescending(lengths, |lengths|);
    if |inputData| < |batch| || |targetData| < |batch| then Err(RowIndexOutOfRange)
    else Ok(SortedBatch(Reorder(inputData, idx), Reorder(targetData, idx), Reorder(lengths, idx)))
  }

  /** `EmitBatch` for a fixed preprocessor, as the stage the generator maps over its batches. */
  function Emitter(prep: (seq<seq<string>>, bool) -> seq<seq<int>>): seq<seq<string>> -> Result<SortedBatch> {
    b => EmitBatch(b, prep)
  }

  /**
   * What one emitted batch satisfies: it fails only when the encoder gives
   * fewer rows than sentences; otherwise the lengths never increase and are
   * the batch's `len + 2` values rearranged, and input row, target row and
   * length `j` all come from the same sentence `idx[j]`, with the input
   * encoded with noise and the target without.
   */
  lemma EmitBatchLaw(batch: seq<seq<string>>, prep: (seq<seq<string>>, bool) -> seq<seq<int>>)
    ensures var r := EmitBatch(batch, prep);
      && (r.Ok? <==> |prep(batch, true)| >= |batch| && |prep(batch, false)| >= |batch|)
      && (r.Err? ==> r.error == RowIndexOutOfRange)
    ensures var r := EmitBatch(batch, prep);
      var idx := ArgSortDescending(BatchLengths(batch), |batch|);
      r.Ok? ==>
        && |r.value.length| == |batch| && |r.value.input| == |batch| && |r.value.target| == |batch|
        && (forall i, j :: 0 <= i < j < |batch| ==> r.value.length[i] >= r.value.length[j])
        && multiset(r.value.length) == multiset(BatchLengths(batch))
        && multiset(idx) == multiset(Range(|batch|))
        && (forall j :: 0 <= j < |batch| ==>
              && r.value.length[j] == |batch[idx[j]]| + 2
              && r.value.input[j] == prep(batch, true)[idx[j]]
              && r.value.target[j] == prep(batch, false)[idx[j]])
  {
    var lengths := BatchLengths(batch);
    ArgSortPermutes(lengths, |lengths|);
    ArgSortSorted(lengths, |lengths|);
    SortedKeysPermute(lengths, |lengths|);
    assert lengths[..|lengths|] == lengths;
  }

  /**
   * `DataGenerator.generate`, as the source does it: one loop over the
   * lines that splits, filters, accumulates, and emits each full batch;
   * a trailing partial batch is dropped. The result is the batcher without
   * residual, over the whitespace tokenizer with `max_length`, mapped through
   * `EmitBatch`, stopping at the first batch that raises.
   */
  method Generate(lines: seq<string>, batchSize: int, maxLength: int, prep: (seq<seq<string>>, bool) -> seq<seq<int>>)
    returns (run: Run<SortedBatch>)
    ensures run == MapRun(Batches(Tokenize(lines, Some(maxLength), SplitWhitespace), batchSize, false), Emitter(prep))
  {
    ghost var k := EffectiveSize(batchSize);
    var f := Emitter(prep);
    ghost var done: seq<seq<seq<string>>> := [];
    var items: seq<SortedBatch> := [];
    var batch: seq<seq<string>> := [];
    var i := 0;
    while i < |lines|
      invariant 0 <= i <= |lines|
      invariant Tokenize(lines[..i], Some(maxLength), SplitWhitespace) == Concat(done) + batch
      invariant forall j :: 0 <= j < |done| ==> |done[j]| == k
      invariant |batch| < k
      invariant MapRun(done, f) == Run(items, None)
    {
      var words := SplitWhitespace(lines[i]);
      TokenizeStep(lines, i, maxLength, Concat(done) + batch);
      i := i + 1;
      if |words| <= maxLength {
        var failure;
        done, batch, items, failure := Accumulate(words, batchSize, f, done, batch, items);
        if failure.Some? {
          run := Run(items, failure);
          EmittedFailure(lines, i, maxLength, k, done, f);
          return;
        }
      }
    }
    assert lines[..i] == lines;
    Drained(Tokenize(lines, Some(maxLength), SplitWhitespace), batchSize, done, batch);
    run := Run(items, None);
  }

  /**
   * The body of the loop for a line that passes the filter: append its words
   * to the current batch and, once the batch is full, emit it and start a
   * new one. An emitted batch that raises ends the generator.
   */
  method Accumulate(words: seq<string>, batchSize: int, f: seq<seq<string>> -> Result<SortedBatch>,
                    ghost done: seq<seq<seq<string>>>, batch: seq<seq<string>>, items: seq<SortedBatch>)
    returns (ghost done': seq<seq<seq<string>>>, batch': seq<seq<string>>, items': seq<SortedBatch>, failure: Option<Error>)
    requires forall j :: 0 <= j < |done| ==> |done[j]| == EffectiveSize(batchSize)
    requires |batch| < EffectiveSize(batchSize)
    requires MapRun(done, f) == Run(items, None)
    ensures Concat(done') + batch' == Concat(done) + batch + [words]
    ensures forall j :: 0 <= j < |done'| ==> |done'[j]| == EffectiveSize(batchSize)
    ensures failure.None? ==> |batch'| < EffectiveSize(batchSize) && MapRun(done', f) == Run(items', None)
    ensures failure.Some? ==> batch' == [] && MapRun(done', f) == Run(items', failure)
    ensures |batch| + 1 < EffectiveSize(batchSize) ==> failure.None? && batch' == batch + [words] && items' == items
    ensures |batch| + 1 == EffectiveSize(batchSize) ==>
      batch' == [] &&
      if f(batch + [words]).Ok? then failure.None? && items' == items + [f(batch + [words]).value]
      else failure == Some(f(batch + [words]).error) && items' == items
  {
    AppendAssoc(Concat(done), batch, [words]);
    batch' := batch + [words];
    done', items', failure := done, items, None;
    if |batch'| >= batchSize {
      var out := f(batch');
      EmitStep(done, batch', f);
      done' := done + [batch'];
      batch' := [];
      if out.Err? {
        failure := Some(out.error);
      } else {
        items' := items + [out.value];
      }
    }
  }

  /** With the input exhausted, the partial batch left over is not emitted. */
  lemma Drained<T>(items: seq<T>, batchSize: int, done: seq<seq<T>>, batch: seq<T>)
    requires items == Concat(done) + batch
    requires forall j :: 0 <= j < |done| ==> |done[j]| == EffectiveSize(batchSize)
    requires |batch| < EffectiveSize(batchSize)
    ensures Batches(items, batchSize, false) == done
  {
    ChunksOfPrefix(done, batch, EffectiveSize(batchSize));
    assert FullBatches(batch, EffectiveSize(batchSize)) == [] && done + [] == done;
  }

  /** Reading one more line extends the tokenized stream by that line's words, unless they are too many. */
  lemma TokenizeStep(lines: seq<string>, i: nat, maxLength: int, sofar: seq<seq<string>>)
    requires i < |lines|
    requires Tokenize(lines[..i], Some(maxLength), SplitWhitespace) == sofar
    ensures |SplitWhitespace(lines[i])| <= maxLength ==>
      Tokenize(lines[..i + 1], Some(maxLength), SplitWhitespace) == sofar + [SplitWhitespace(lines[i])]
    ensures |SplitWhitespace(lines[i])| > maxLength ==>
      Tokenize(lines[..i + 1], Some(maxLength), SplitWhitespace) == sofar
  {
    TokenizeAppend(lines[..i], [lines[i]], Some(maxLength), SplitWhitespace);
    TokenizeOne(lines[i], Some(maxLength), SplitWhitespace);
    assert lines[..i + 1] == lines[..i] + [lines[i]];
  }

  /** Emitting one more full batch after batches that all succeeded. */
  lemma EmitStep(done: seq<seq<seq<string>>>, batch: seq<seq<string>>, f: seq<seq<string>> -> Result<SortedBatch>)
    requires MapRun(done, f).failure.None?
    ensures Concat(done + [batch]) == Concat(done) + batch
    ensures MapRun(done + [batch], f) ==
      if f(batch).Ok? then Run(MapRun(done, f).items + [f(batch).value], None)
      else Run(MapRun(done, f).items, Some(f(batch).error))
  {
    ConcatAppend(done, batch);
    MapRunAppend(done, [batch], f);
    assert [batch][1..] == [];
  }

  /** Once an emitted batch has raised, the batches of the remaining lines are never reached. */
  lemma EmittedFailure(lines: seq<string>, i: nat, maxLength: int, k: nat, done: seq<seq<seq<string>>>,
                       f: seq<seq<string>> -> Result<SortedBatch>)
    requires i <= |lines| && k >= 1
    requires Tokenize(lines[..i], Some(maxLength), SplitWhitespace) == Concat(done)
    requires forall j :: 0 <= j < |done| ==> |done[j]| == k
    requires MapRun(done, f).failure.Some?
    ensures MapRun(FullBatches(Tokenize(lines, Some(maxLength), SplitWhitespace), k), f) == MapRun(done, f)
  {
    var rest := Tokenize(lines[i..], Some(maxLength), SplitWhitespace);
    TokenizeAppend(lines[..i], lines[i..], Some(maxLength), SplitWhitespace);
    assert lines[..i] + lines[i..] == lines;
    ChunksOfPrefix(done, rest, k);
    MapRunAppend(done, FullBatches(rest, k), f);
  }
}
