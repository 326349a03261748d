/**
 * Noise injection. `random_idx` draws distinct positions from a random
 * permutation; the package noisifiers overwrite or exchange entries of the
 * padded id matrix in place, row by row. The random permutation and the
 * rounded count are supplied as a `Draw`, one per row.
 */
module Noise {

  /** `perm` is an arrangement of `0 .. n-1` (empty when `n <= 0`, as `np.random.permutation` gives). */
  predicate IsPermutation(perm: seq<int>, n: int) {
    && |perm| == (if n > 0 then n else 0)
    && (forall i :: 0 <= i < |perm| ==> 0 <= perm[i] < n)
    && (forall i, j :: 0 <= i < j < |perm| ==> perm[i] != perm[j])
  }

  /** One call of `random_idx`: the permutation numpy drew and `round(l * prob)`. */
  datatype Draw = Draw(perm: seq<int>, count: nat)

  /**
   * `random_idx(n, prob)`: the first `round(n * prob)` entries of a random
   * permutation of `0 .. n-1`. The indices are distinct and in range, there
   * are as many as asked for (or all of them when more are asked), and there
   * are none when `n <= 0`.
   */
  function RandomIdx(n: int, d: Draw): (idx: seq<int>)
    requires IsPermutation(d.perm, n)
    ensures |idx| == if n <= 0 then 0 else if d.count <= n then d.count else n
    ensures forall i :: 0 <= i < |idx| ==> 0 <= idx[i] < n
    ensures forall i, j :: 0 <= i < j < |idx| ==> idx[i] != idx[j]
  {
    if d.count < |d.perm| then d.perm[..d.count] else d.perm
  }

  // ---------------------------------------------------------------------------
  // Row edits shared by the package noisifiers and the legacy preprocessor
  // ---------------------------------------------------------------------------

  /** One of the first `n` drawn indices, shifted by `offset`, lands on position `p`. */
  predicate HitBefore(idx: seq<int>, n: nat, offset: int, p: int)
    requires n <= |idx|
  {
    exists j :: 0 <= j < n && idx[j] + offset == p
  }

  /** Some drawn index, shifted by `offset`, lands on position `p`. */
  predicate Hit(idx: seq<int>, offset: int, p: int) {
    HitBefore(idx, |idx|, offset, p)
  }

  /** One of the first `n` swaps, at a drawn index shifted by `offset`, involves position `p`. */
  predicate TouchedBefore(idx: seq<int>, n: nat, offset: int, p: int)
    requires n <= |idx|
  {
    exists j :: 0 <= j < n && (idx[j] + offset == p || idx[j] + offset + 1 == p)
  }

  /** A swap at some drawn index, shifted by `offset`, involves position `p`. */
  predicate Touched(idx: seq<int>, offset: int, p: int) {
    TouchedBefore(idx, |idx|, offset, p)
  }

  /** The row after `row[idx[j] + offset] = unk` for the first `n` drawn indices, in order. */
  function OmittedFirst(row: seq<int>, idx: seq<int>, n: nat, offset: int, unk: int): (r: seq<int>)
    requires n <= |idx| && forall j :: 0 <= j < |idx| ==> 0 <= idx[j] + offset < |row|
    ensures |r| == |row|
    decreases n
  {
    if n == 0 then row
    else OmittedFirst(row, idx, n - 1, offset, unk)[idx[n - 1] + offset := unk]
  }

  /** The row after `row[i + offset] = unk` for each drawn `i`, in order. */
  function Omitted(row: seq<int>, idx: seq<int>, offset: int, unk: int): (r: seq<int>)
    requires forall j :: 0 <= j < |idx| ==> 0 <= idx[j] + offset < |row|
  {
    OmittedFirst(row, idx, |idx|, offset, unk)
  }

  /** The entries at `p` and `p + 1` trade places; every other entry stays. */
  function Exchange(s: seq<int>, p: int): (r: seq<int>)
    requires 0 <= p && p + 1 < |s|
    ensures |r| == |s|
  {
    seq(|s|, i requires 0 <= i < |s| => if i == p then s[p + 1] else if i == p + 1 then s[p] else s[i])
  }

  /** Trading two entries keeps the multiset of entries. */
  lemma ExchangePermutes(s: seq<int>, p: int)
    requires 0 <= p && p + 1 < |s|
    ensures multiset(Exchange(s, p)) == multiset(s)
  {
    var mid := s[p := s[p + 1]];
    assert Exchange(s, p) == mid[p + 1 := s[p]];
    assert multiset(mid) == multiset(s) - multiset{s[p]} + multiset{s[p + 1]};
    assert multiset(mid[p + 1 := s[p]]) == multiset(mid) - multiset{mid[p + 1]} + multiset{s[p]};
  }

  /**
   * The row after exchanging positions `i + offset` and `i + offset + 1` for
   * the first `n` drawn `i`, in order.
   */
  function SwappedFirst(row: seq<int>, idx: seq<int>, n: nat, offset: int): (r: seq<int>)
    requires n <= |idx| && forall j :: 0 <= j < |idx| ==> 0 <= idx[j] + offset && idx[j] + offset + 1 < |row|
    ensures |r| == |row|
    decreases n
  {
    if n == 0 then row
    else Exchange(SwappedFirst(row, idx, n - 1, offset), idx[n - 1] + offset)
  }

  /** The row after exchanging positions `i + offset` and `i + offset + 1` for each drawn `i`, in order. */
  function Swapped(row: seq<int>, idx: seq<int>, offset: int): (r: seq<int>)
    requires forall j :: 0 <= j < |idx| ==> 0 <= idx[j] + offset && idx[j] + offset + 1 < |row|
  {
    SwappedFirst(row, idx, |idx|, offset)
  }

  /**
   * What `sent[p], sent[p + 1] = sent[p + 1], sent[p]` does when `sent` is a
   * torch tensor: the right-hand side holds two views into the row, so the
   * first store copies `sent[p + 1]` into `sent[p]` and the second stores that
   * same value back into `sent[p + 1]`. Here for the first `n` drawn indices.
   */
  function AliasedSwappedFirst(row: seq<int>, idx: seq<int>, n: nat, offset: int): (r: seq<int>)
    requires n <= |idx| && forall j :: 0 <= j < |idx| ==> 0 <= idx[j] + offset && idx[j] + offset + 1 < |row|
    ensures |r| == |row|
    decreases n
  {
    if n == 0 then row
    else
      var prev := AliasedSwappedFirst(row, idx, n - 1, offset);
      var p := idx[n - 1] + offset;
      prev[p := prev[p + 1]]
  }

  /** The tensor code's "swap" for each drawn index, in order. */
  function AliasedSwapped(row: seq<int>, idx: seq<int>, offset: int): (r: seq<int>)
    requires forall j :: 0 <= j < |idx| ==> 0 <= idx[j] + offset && idx[j] + offset + 1 < |row|
  {
    AliasedSwappedFirst(row, idx, |idx|, offset)
  }

  /** One more draw hits a position exactly when the earlier draws or the new one hit it. */
  lemma HitStep(idx: seq<int>, n: nat, offset: int, p: int)
    requires n < |idx|
    ensures HitBefore(idx, n + 1, offset, p) <==> HitBefore(idx, n, offset, p) || idx[n] + offset == p
  {
    if HitBefore(idx, n + 1, offset, p) && idx[n] + offset != p {
      var j :| 0 <= j < n + 1 && idx[j] + offset == p;
      assert j < n;
    }
  }

  /** One more swap touches a position exactly when the earlier swaps or the new one touch it. */
  lemma TouchedStep(idx: seq<int>, n: nat, offset: int, p: int)
    requires n < |idx|
    ensures TouchedBefore(idx, n + 1, offset, p) <==>
      TouchedBefore(idx, n, offset, p) || idx[n] + offset == p || idx[n] + offset + 1 == p
  {
    if TouchedBefore(idx, n + 1, offset, p) && idx[n] + offset != p && idx[n] + offset + 1 != p {
      var j :| 0 <= j < n + 1 && (idx[j] + offset == p || idx[j] + offset + 1 == p);
      assert j < n;
    }
  }

  /** Omission writes `unk` exactly at the drawn positions and leaves every other entry as it was. */
  lemma {:induction false} OmittedAt(row: seq<int>, idx: seq<int>, n: nat, offset: int, unk: int)
    requires n <= |idx| && forall j :: 0 <= j < |idx| ==> 0 <= idx[j] + offset < |row|
    ensures forall p :: 0 <= p < |row| ==>
      OmittedFirst(row, idx, n, offset, unk)[p] == if HitBefore(idx, n, offset, p) then unk else row[p]
    decreases n
  {
    if n > 0 {
      OmittedAt(row, idx, n - 1, offset, unk);
      forall p | 0 <= p < |row|
        ensures OmittedFirst(row, idx, n, offset, unk)[p] == if HitBefore(idx, n, offset, p) then unk else row[p]
      {
        HitStep(idx, n - 1, offset, p);
      }
    }
  }

  /** Swapping keeps the row's multiset of ids. */
  lemma {:induction false} SwappedPermutes(row: seq<int>, idx: seq<int>, n: nat, offset: int)
    requires n <= |idx| && forall j :: 0 <= j < |idx| ==> 0 <= idx[j] + offset && idx[j] + offset + 1 < |row|
    ensures multiset(SwappedFirst(row, idx, n, offset)) == multiset(row)
    decreases n
  {
    if n > 0 {
      SwappedPermutes(row, idx, n - 1, offset);
      ExchangePermutes(SwappedFirst(row, idx, n - 1, offset), idx[n - 1] + offset);
    }
  }

  /** Swapping changes no position that no drawn swap involves. */
  lemma {:induction false} SwappedFrame(row: seq<int>, idx: seq<int>, n: nat, offset: int)
    requires n <= |idx| && forall j :: 0 <= j < |idx| ==> 0 <= idx[j] + offset && idx[j] + offset + 1 < |row|
    ensures forall p :: 0 <= p < |row| && !TouchedBefore(idx, n, offset, p) ==> SwappedFirst(row, idx, n, offset)[p] == row[p]
    decreases n
  {
    if n > 0 {
      SwappedFrame(row, idx, n - 1, offset);
      forall p | 0 <= p < |row| && !TouchedBefore(idx, n, offset, p)
        ensures SwappedFirst(row, idx, n, offset)[p] == row[p]
      {
        TouchedStep(idx, n - 1, offset, p);
      }
    }
  }

  // ---------------------------------------------------------------------------
  // The package noisifiers, one row at a time
  // ---------------------------------------------------------------------------

  /** `OmissionNoisifier` on one row of length `l`: `sent[i + 1] = unk_idx` for `i` in `random_idx(l - 2, ...)`. */
  function OmitRow(row: seq<int>, l: int, d: Draw, unk: int): seq<int>
    requires l <= |row| && IsPermutation(d.perm, l - 2)
  {
    Omitted(row, RandomIdx(l - 2, d), 1, unk)
  }

  /** `SwapNoisifier` on one row of length `l`, exchanging `sent[i + 1]` and `sent[i + 2]` for `i` in `random_idx(l - 3, ...)`. */
  function SwapRow(row: seq<int>, l: int, d: Draw): seq<int>
    requires l <= |row| && IsPermutation(d.perm, l - 3)
  {
    Swapped(row, RandomIdx(l - 3, d), 1)
  }

  /** `SwapNoisifier` on one row as the tensor code behaves. */
  function AliasedSwapRow(row: seq<int>, l: int, d: Draw): seq<int>
    requires l <= |row| && IsPermutation(d.perm, l - 3)
  {
    AliasedSwapped(row, RandomIdx(l - 3, d), 1)
  }

  /**
   * Omission keeps the row's length and overwrites with `unk` exactly the
   * positions `i + 1` for drawn `i`, all inside `[1, l - 1)`: the first
   * token, the last token and the padding are never touched, and a row of at
   * most two tokens is left alone.
   */
  lemma OmitRowLaw(row: seq<int>, l: int, d: Draw, unk: int)
    requires l <= |row| && IsPermutation(d.perm, l - 2)
    ensures var r := OmitRow(row, l, d, unk);
      && |r| == |row|
      && (forall p :: 0 <= p < |row| && Hit(RandomIdx(l - 2, d), 1, p) ==> r[p] == unk)
      && (forall p :: 0 <= p < |row| && !Hit(RandomIdx(l - 2, d), 1, p) ==> r[p] == row[p])
      && (forall p :: 0 <= p < |row| && r[p] != row[p] ==> 1 <= p < l - 1)
      && (l <= 2 ==> r == row)
  {
    var idx := RandomIdx(l - 2, d);
    OmittedAt(row, idx, |idx|, 1, unk);
    var r := OmitRow(row, l, d, unk);
    forall p | 0 <= p < |row| && r[p] != row[p] ensures 1 <= p < l - 1 {
      var j :| 0 <= j < |idx| && idx[j] + 1 == p;
    }
  }

  /**
   * Swapping keeps the row a permutation of itself, and only positions inside
   * `[1, l - 1)` can move: the first token, the last token and the padding
   * stay, and a row of at most three tokens is left alone.
   */
  lemma SwapRowLaw(row: seq<int>, l: int, d: Draw)
    requires l <= |row| && IsPermutation(d.perm, l - 3)
    ensures var r := SwapRow(row, l, d);
      && |r| == |row|
      && multiset(r) == multiset(row)
      && (forall p :: 0 <= p < |row| && r[p] != row[p] ==> 1 <= p < l - 1)
      && (l <= 3 ==> r == row)
  {
    var idx := RandomIdx(l - 3, d);
    SwappedPermutes(row, idx, |idx|, 1);
    SwappedFrame(row, idx, |idx|, 1);
    var r := SwapRow(row, l, d);
    forall p | 0 <= p < |row| && r[p] != row[p] ensures 1 <= p < l - 1 {
      var j :| 0 <= j < |idx| && (idx[j] + 1 == p || idx[j] + 2 == p);
    }
  }

  /**
   * The tensor code does not swap: on the row `[bos, 5, 6, eos]` with the
   * single draw `i = 0` it yields `[bos, 6, 6, eos]`, losing the id 5.
   */
  lemma AliasedSwapLosesIds()
    ensures AliasedSwapRow([1, 5, 6, 2], 4, Draw([0], 1)) == [1, 6, 6, 2]
    ensures multiset(AliasedSwapRow([1, 5, 6, 2], 4, Draw([0], 1))) != multiset([1, 5, 6, 2])
  {
    AliasedSwapOnce([1, 5, 6, 2]);
    assert [1, 5, 6, 2][1] == 5;
    assert 5 in multiset([1, 5, 6, 2]) && 5 !in multiset([1, 6, 6, 2]);
  }

  /** One drawn position 0 on a row of four: the entry at 1 is overwritten with the entry at 2. */
  lemma AliasedSwapOnce(row: seq<int>)
    requires |row| == 4
    ensures AliasedSwapRow(row, 4, Draw([0], 1)) == [row[0], row[2], row[2], row[3]]
  {
    assert RandomIdx(1, Draw([0], 1)) == [0];
  }

  // ---------------------------------------------------------------------------
  // The noisifiers over a batch matrix
  // ---------------------------------------------------------------------------

  /** Row `r` of the matrix. */
  ghost function Row(a: array2<int>, r: nat): seq<int>
    reads a
    requires r < a.Length0
  {
    seq(a.Length1, c requires 0 <= c < a.Length1 reads a => a[r, c])
  }

  /** How many (row, length) pairs `zip(batch, lens)` produces. */
  function Zipped(rows: nat, lens: seq<int>): nat {
    if rows < |lens| then rows else |lens|
  }

  /** Each zipped row fits its length and comes with a draw over `[0, l - shrink)`. */
  predicate DrawsFit(rows: nat, width: nat, lens: seq<int>, draws: seq<Draw>, shrink: nat) {
    && |draws| >= Zipped(rows, lens)
    && forall r :: 0 <= r < Zipped(rows, lens) ==> lens[r] <= width && IsPermutation(draws[r].perm, lens[r] - shrink)
  }

  /** A row whose every cell agrees with `row` is `row`. */
  lemma RowsFromCells(a: array2<int>, r: nat, row: seq<int>)
    requires r < a.Length0 && |row| == a.Length1
    requires forall c :: 0 <= c < a.Length1 ==> a[r, c] == row[c]
    ensures Row(a, r) == row
  {
  }

  /** `sent[p] = v` on row `r`: one entry of that row changes and every other cell stays. */
  method StoreInRow(batch: array2<int>, r: nat, p: nat, v: int)
    requires r < batch.Length0 && p < batch.Length1
    modifies batch
    ensures Row(batch, r) == old(Row(batch, r))[p := v]
    ensures forall rr, c :: 0 <= rr < batch.Length0 && rr != r && 0 <= c < batch.Length1 ==> batch[rr, c] == old(batch[rr, c])
  {
    ghost var before := Row(batch, r);
    batch[r, p] := v;
    RowsFromCells(batch, r, before[p := v]);
  }

  /** `sent[i + 1] = unk_idx` for each drawn `i`, on row `r` of the matrix. */
  method OmitInRow(batch: array2<int>, r: nat, l: int, d: Draw, unk: int)
    requires r < batch.Length0 && l <= batch.Length1 && IsPermutation(d.perm, l - 2)
    modifies batch
    ensures Row(batch, r) == OmitRow(old(Row(batch, r)), l, d, unk)
    ensures forall rr, c :: 0 <= rr < batch.Length0 && rr != r && 0 <= c < batch.Length1 ==> batch[rr, c] == old(batch[rr, c])
  {
    ghost var orig := Row(batch, r);
    var idx := RandomIdx(l - 2, d);
    var j := 0;
    while j < |idx|
      invariant 0 <= j <= |idx|
      invariant Row(batch, r) == OmittedFirst(orig, idx, j, 1, unk)
      invariant forall rr, c :: 0 <= rr < batch.Length0 && rr != r && 0 <= c < batch.Length1 ==> batch[rr, c] == old(batch[rr, c])
    {
      StoreInRow(batch, r, idx[j] + 1, unk);
      j := j + 1;
    }
  }

  /** `sent[p], sent[p + 1] = sent[p + 1], sent[p]` on row `r`, reading both entries before storing either. */
  method ExchangeInRow(batch: array2<int>, r: nat, p: nat)
    requires r < batch.Length0 && p + 1 < batch.Length1
    modifies batch
    ensures Row(batch, r) == Exchange(old(Row(batch, r)), p)
    ensures forall rr, c :: 0 <= rr < batch.Length0 && rr != r && 0 <= c < batch.Length1 ==> batch[rr, c] == old(batch[rr, c])
  {
    ghost var before := Row(batch, r);
    var tmp := batch[r, p];
    batch[r, p] := batch[r, p + 1];
    batch[r, p + 1] := tmp;
    RowsFromCells(batch, r, Exchange(before, p));
  }

  /** Exchanges `sent[i + 1]` and `sent[i + 2]` for each drawn `i`, on row `r` of the matrix. */
  method SwapInRow(batch: array2<int>, r: nat, l: int, d: Draw)
    requires r < batch.Length0 && l <= batch.Length1 && IsPermutation(d.perm, l - 3)
    modifies batch
    ensures Row(batch, r) == SwapRow(old(Row(batch, r)), l, d)
    ensures forall rr, c :: 0 <= rr < batch.Length0 && rr != r && 0 <= c < batch.Length1 ==> batch[rr, c] == old(batch[rr, c])
  {
    ghost var orig := Row(batch, r);
    var idx := RandomIdx(l - 3, d);
    var j := 0;
    while j < |idx|
      invariant 0 <= j <= |idx|
      invariant Row(batch, r) == SwappedFirst(orig, idx, j, 1)
      invariant forall rr, c :: 0 <= rr < batch.Length0 && rr != r && 0 <= c < batch.Length1 ==> batch[rr, c] == old(batch[rr, c])
    {
      ExchangeInRow(batch, r, idx[j] + 1);
      j := j + 1;
    }
  }

  /** The tuple assignment as it behaves on a tensor row: two stores, each reading the row's current entry. */
  method AliasedSwapInRow(batch: array2<int>, r: nat, l: int, d: Draw)
    requires r < batch.Length0 && l <= batch.Length1 && IsPermutation(d.perm, l - 3)
    modifies batch
    ensures Row(batch, r) == AliasedSwapRow(old(Row(batch, r)), l, d)
    ensures forall rr, c :: 0 <= rr < batch.Length0 && rr != r && 0 <= c < batch.Length1 ==> batch[rr, c] == old(batch[rr, c])
  {
    ghost var orig := Row(batch, r);
    var idx := RandomIdx(l - 3, d);
    var j := 0;
    while j < |idx|
      invariant 0 <= j <= |idx|
      invariant Row(batch, r) == AliasedSwappedFirst(orig, idx, j, 1)
      invariant forall rr, c :: 0 <= rr < batch.Length0 && rr != r && 0 <= c < batch.Length1 ==> batch[rr, c] == old(batch[rr, c])
    {
      var p := idx[j] + 1;
      ghost var prev := Row(batch, r);
      var v := batch[r, p + 1];
      assert v == prev[p + 1];
      StoreInRow(batch, r, p, v);
      var w := batch[r, p];
      assert w == Row(batch, r)[p] == v;
      StoreInRow(batch, r, p + 1, w);
      assert prev[p := v][p + 1 := v] == prev[p := v];
      j := j + 1;
    }
  }

  /**
   * `OmissionNoisifier(omit_prob, unk_idx)((batch, lens))`: nothing happens
   * when `omit_prob <= 0`; otherwise every zipped row becomes its omitted
   * version and the rows past the shorter of `batch` and `lens` stay as
   * they were. `lens` is only read.
   */
  method OmissionNoisify(omitProb: real, unk: int, batch: array2<int>, lens: seq<int>, draws: seq<Draw>)
    requires DrawsFit(batch.Length0, batch.Length1, lens, draws, 2)
    modifies batch
    ensures omitProb <= 0.0 ==> forall r :: 0 <= r < batch.Length0 ==> Row(batch, r) == old(Row(batch, r))
    ensures omitProb > 0.0 ==> forall r :: 0 <= r < Zipped(batch.Length0, lens) ==>
      Row(batch, r) == OmitRow(old(Row(batch, r)), lens[r], draws[r], unk)
    ensures forall r :: Zipped(batch.Length0, lens) <= r < batch.Length0 ==> Row(batch, r) == old(Row(batch, r))
  {
    if omitProb <= 0.0 {
      return;
    }
    var n := Zipped(batch.Length0, lens);
    var r := 0;
    while r < n
      invariant 0 <= r <= n
      invariant forall rr :: 0 <= rr < r ==> Row(batch, rr) == OmitRow(old(Row(batch, rr)), lens[rr], draws[rr], unk)
      invariant forall rr :: r <= rr < batch.Length0 ==> Row(batch, rr) == old(Row(batch, rr))
    {
      ghost var before := Row(batch, r);
      label step:
      OmitInRow(batch, r, lens[r], draws[r], unk);
      forall rr | 0 <= rr < batch.Length0 && rr != r ensures Row(batch, rr) == old@step(Row(batch, rr)) {
        RowsFromCells(batch, rr, old@step(Row(batch, rr)));
      }
      r := r + 1;
    }
  }

  /**
   * `SwapNoisifier(swap_prob)((batch, lens))` as evidently intended, with a
   * real exchange: nothing happens when `swap_prob <= 0`; otherwise every
   * zipped row becomes its swapped version, which `SwapRowLaw` shows to be a
   * permutation of it, and the remaining rows stay as they were.
   */
  method SwapNoisify(swapProb: real, batch: array2<int>, lens: seq<int>, draws: seq<Draw>)
    requires DrawsFit(batch.Length0, batch.Length1, lens, draws, 3)
    modifies batch
    ensures swapProb <= 0.0 ==> forall r :: 0 <= r < batch.Length0 ==> Row(batch, r) == old(Row(batch, r))
    ensures swapProb > 0.0 ==> forall r :: 0 <= r < Zipped(batch.Length0, lens) ==>
      Row(batch, r) == SwapRow(old(Row(batch, r)), lens[r], draws[r])
    ensures forall r :: Zipped(batch.Length0, lens) <= r < batch.Length0 ==> Row(batch, r) == old(Row(batch, r))
  {
    if swapProb <= 0.0 {
      return;
    }
    var n := Zipped(batch.Length0, lens);
    var r := 0;
    while r < n
      invariant 0 <= r <= n
      invariant forall rr :: 0 <= rr < r ==> Row(batch, rr) == SwapRow(old(Row(batch, rr)), lens[rr], draws[rr])
      invariant forall rr :: r <= rr < batch.Length0 ==> Row(batch, rr) == old(Row(batch, rr))
    {
      ghost var before := Row(batch, r);
      label step:
      SwapInRow(batch, r, lens[r], draws[r]);
      forall rr | 0 <= rr < batch.Length0 && rr != r ensures Row(batch, rr) == old@step(Row(batch, rr)) {
        RowsFromCells(batch, rr, old@step(Row(batch, rr)));
      }
      r := r + 1;
    }
  }

  /** `SwapNoisifier(swap_prob)((batch, lens))` as written, on a tensor batch. */
  method AliasedSwapNoisify(swapProb: real, batch: array2<int>, lens: seq<int>, draws: seq<Draw>)
    requires DrawsFit(batch.Length0, batch.Length1, lens, draws, 3)
    modifies batch
    ensures swapProb <= 0.0 ==> forall r :: 0 <= r < batch.Length0 ==> Row(batch, r) == old(Row(batch, r))
    ensures swapProb > 0.0 ==> forall r :: 0 <= r < Zipped(batch.Length0, lens) ==>
      Row(batch, r) == AliasedSwapRow(old(Row(batch, r)), lens[r], draws[r])
    ensures forall r :: Zipped(batch.Length0, lens) <= r < batch.Length0 ==> Row(batch, r) == old(Row(batch, r))
  {
    if swapProb <= 0.0 {
      return;
    }
    var n := Zipped(batch.Length0, lens);
    var r := 0;
    while r < n
      invariant 0 <= r <= n
      invariant forall rr :: 0 <= rr < r ==> Row(batch, rr) == AliasedSwapRow(old(Row(batch, rr)), lens[rr], draws[rr])
      invariant forall rr :: r <= rr < batch.Length0 ==> Row(batch, rr) == old(Row(batch, rr))
    {
      ghost var before := Row(batch, r);
      label step:
      AliasedSwapInRow(batch, r, lens[r], draws[r]);
      forall rr | 0 <= rr < batch.Length0 && rr != r ensures Row(batch, rr) == old@step(Row(batch, rr)) {
        RowsFromCells(batch, rr, old@step(Row(batch, rr)));
      }
      r := r + 1;
    }
  }
}
