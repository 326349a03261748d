/**
 * The older encoder at the repository root. It frames every sentence with
 * the begin and end markers, optionally adds noise to each framed list (so
 * the markers can be noised too), and pads the lists to the longest.
 */
module LegacyPreprocessing {
  import opened Outcomes
  import opened Tensors
  import opened Noise
  import BatchPreprocessing

  /** The vocabulary's word table and the ids of its four reserved tokens. */
  datatype Preprocessor = Preprocessor(f2i: map<string, int>, unkIdx: int, padIdx: int, bosIdx: int, eosIdx: int)

  /** The two random draws `_add_noise` makes for one list: swap positions, then omit positions. */
  datatype NoiseDraw = NoiseDraw(swap: Draw, omit: Draw)

  /** The draws fit a list of `n` ids. */
  predicate DrawFits(d: NoiseDraw, n: nat) {
    IsPermutation(d.swap.perm, n - 1) && IsPermutation(d.omit.perm, n)
  }

  /** `[bos] + [vocab[w] if w in vocab else unk for w in words] + [eos]`. */
  function Framed(p: Preprocessor, words: seq<string>): (row: seq<int>)
    ensures |row| == |words| + 2 && row[0] == p.bosIdx && row[|row| - 1] == p.eosIdx
    ensures forall j :: 0 <= j < |words| ==> row[j + 1] == BatchPreprocessing.WordId(p.f2i, p.unkIdx, words[j])
  {
    BatchPreprocessing.FramedRow(BatchPreprocessing.BatchPreprocessor(p.f2i, p.unkIdx, p.padIdx, p.bosIdx, p.eosIdx, true, true), words)
  }

  /**
   * What `_add_noise` returns: on a copy, exchange positions `i` and `i + 1`
   * for each drawn `i` in `[0, len - 1)`, then write `unk` at each drawn
   * position in `[0, len)`.
   */
  function NoisySentence(words: seq<int>, d: NoiseDraw, unk: int): (r: seq<int>)
    requires DrawFits(d, |words|)
    ensures |r| == |words|
  {
    Omitted(Swapped(words, RandomIdx(|words| - 1, d.swap), 0), RandomIdx(|words|, d.omit), 0, unk)
  }

  /** The swap loop of `_add_noise`: exchange `words[i]` and `words[i + 1]` for each drawn `i`, in draw order. */
  method SwapLoop(buf: array<int>, swapInds: seq<int>)
    requires forall j :: 0 <= j < |swapInds| ==> 0 <= swapInds[j] && swapInds[j] + 1 < buf.Length
    modifies buf
    ensures buf[..] == SwappedFirst(old(buf[..]), swapInds, |swapInds|, 0)
  {
    ghost var orig := buf[..];
    var j := 0;
    while j < |swapInds|
      invariant 0 <= j <= |swapInds|
      invariant buf[..] == SwappedFirst(orig, swapInds, j, 0)
    {
      var i := swapInds[j];
      ghost var prev := buf[..];
      buf[i], buf[i + 1] := buf[i + 1], buf[i];
      assert buf[..] == Exchange(prev, i);
      j := j + 1;
    }
  }

  /** The omission loop of `_add_noise`: write `unk` at each drawn position. */
  method OmitLoop(buf: array<int>, omitInds: seq<int>, unk: int)
    requires forall j :: 0 <= j < |omitInds| ==> 0 <= omitInds[j] < buf.Length
    modifies buf
    ensures buf[..] == OmittedFirst(old(buf[..]), omitInds, |omitInds|, 0, unk)
  {
    ghost var orig := buf[..];
    var j := 0;
    while j < |omitInds|
      invariant 0 <= j <= |omitInds|
      invariant buf[..] == OmittedFirst(orig, omitInds, j, 0, unk)
    {
      buf[omitInds[j]] := unk;
      j := j + 1;
    }
  }

  /** `Preprocessor._add_noise`, as the source does it: copy, swap loop, omit loop. */
  method AddNoise(p: Preprocessor, words: seq<int>, d: NoiseDraw) returns (noisy: seq<int>)
    requires DrawFits(d, |words|)
    ensures noisy == NoisySentence(words, d, p.unkIdx)
  {
    var buf := new int[|words|](i requires 0 <= i < |words| => words[i]);
    assert buf[..] == words;
    SwapLoop(buf, RandomIdx(|words| - 1, d.swap));
    OmitLoop(buf, RandomIdx(|words|, d.omit), p.unkIdx);
    noisy := buf[..];
  }

  /**
   * The noise keeps the length; its swap phase only rearranges the list, and
   * its omission phase then writes `unk` exactly at the drawn positions,
   * which range over the whole list.
   */
  lemma NoisySentenceLaw(words: seq<int>, d: NoiseDraw, unk: int)
    requires DrawFits(d, |words|)
    ensures var swapped := Swapped(words, RandomIdx(|words| - 1, d.swap), 0);
      && |NoisySentence(words, d, unk)| == |words|
      && multiset(swapped) == multiset(words)
      && (forall q :: 0 <= q < |words| ==>
            NoisySentence(words, d, unk)[q] == if Hit(RandomIdx(|words|, d.omit), 0, q) then unk else swapped[q])
  {
    var swapped := Swapped(words, RandomIdx(|words| - 1, d.swap), 0);
    var swapInds := RandomIdx(|words| - 1, d.swap);
    var omitInds := RandomIdx(|words|, d.omit);
    SwappedPermutes(words, swapInds, |swapInds|, 0);
    OmittedAt(swapped, omitInds, |omitInds|, 0, unk);
  }

  /**
   * Unlike the package noisifiers, this noise reaches the markers: the
   * framed list `[bos, w, eos]` can lose its begin marker to omission, and
   * a swap at 0 moves it to position 1.
   */
  lemma NoiseReachesMarkers(bos: int, w: int, eos: int, unk: int)
    ensures NoisySentence([bos, w, eos], NoiseDraw(Draw([0, 1], 0), Draw([0, 1, 2], 1)), unk)[0] == unk
    ensures NoisySentence([bos, w, eos], NoiseDraw(Draw([0, 1], 1), Draw([0, 1, 2], 0)), unk) == [w, bos, eos]
  {
    assert [0, 1][..0] == [] && [0, 1][..1] == [0] && [0, 1, 2][..0] == [] && [0, 1, 2][..1] == [0];
    assert [0][..0] == [];
  }

  /** The framed, optionally noised, lists before padding. */
  function Rows(p: Preprocessor, batch: seq<seq<string>>, noise: bool, draws: seq<NoiseDraw>): (rows: seq<seq<int>>)
    requires noise ==> |draws| >= |batch| && forall i :: 0 <= i < |batch| ==> DrawFits(draws[i], |batch[i]| + 2)
    ensures |rows| == |batch|
    ensures forall i :: 0 <= i < |batch| ==> |rows[i]| == |batch[i]| + 2
    ensures forall i :: 0 <= i < |batch| ==>
      rows[i] == if noise then NoisySentence(Framed(p, batch[i]), draws[i], p.unkIdx) else Framed(p, batch[i])
  {
    seq(|batch|, i requires 0 <= i < |batch| =>
      if noise then NoisySentence(Framed(p, batch[i]), draws[i], p.unkIdx) else Framed(p, batch[i]))
  }

  /** `Preprocessor.__call__(batch, noise)`: frame, noise when asked, pad to the longest list. */
  function Preprocess(p: Preprocessor, batch: seq<seq<string>>, noise: bool, draws: seq<NoiseDraw>): (r: Result<seq<seq<int>>>)
    requires noise ==> |draws| >= |batch| && forall i :: 0 <= i < |batch| ==> DrawFits(draws[i], |batch[i]| + 2)
    ensures r.Err? <==> batch == []
    ensures r.Err? ==> r.error == EmptyBatch
  {
    PadToLongest(Rows(p, batch, noise, draws), p.padIdx)
  }

  /**
   * The encoder's promise about a non-empty batch: one row per sentence, all
   * as wide as the longest framed list (`len + 2`, noise or not), which some
   * row attains; below `len + 2` a row is the framed list, noised when asked
   * (so padding is never noised); beyond it only the pad id.
   */
  lemma PreprocessLaw(p: Preprocessor, batch: seq<seq<string>>, noise: bool, draws: seq<NoiseDraw>)
    requires batch != []
    requires noise ==> |draws| >= |batch| && forall i :: 0 <= i < |batch| ==> DrawFits(draws[i], |batch[i]| + 2)
    ensures Preprocess(p, batch, noise, draws).Ok?
    ensures var rows := Preprocess(p, batch, noise, draws).value;
      && |rows| == |batch|
      && (forall i :: 0 <= i < |batch| ==> |rows[i]| == |rows[0]| && |batch[i]| + 2 <= |rows[i]|)
      && (exists i :: 0 <= i < |batch| && |batch[i]| + 2 == |rows[0]|)
      && (!noise ==> forall i :: 0 <= i < |batch| ==> rows[i][..|batch[i]| + 2] == Framed(p, batch[i]))
      && (noise ==> forall i :: 0 <= i < |batch| ==>
            rows[i][..|batch[i]| + 2] == NoisySentence(Framed(p, batch[i]), draws[i], p.unkIdx))
      && (forall i, j :: 0 <= i < |batch| && |batch[i]| + 2 <= j < |rows[i]| ==> rows[i][j] == p.padIdx)
  {
    var unpadded := Rows(p, batch, noise, draws);
    forall i | 0 <= i < |batch| ensures |unpadded[i]| == |batch[i]| + 2 {
      if noise {
        NoisySentenceLaw(Framed(p, batch[i]), draws[i], p.unkIdx);
      }
    }
  }
}
