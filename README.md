# pytorch-text-utils, modelled in Dafny

pytorch-text-utils turns raw sentences into padded id tensors for training
sequence models. Sentences are split into words. The word lists are grouped
into batches. A vocabulary maps each batch to id rows, framed by begin/end
markers and right-padded to the longest row. Noise can be injected (words
swapped or replaced by the unknown id). For skip-thought training, a context
window is slid over each batch. The repository holds two generations of the
pipeline:

- the package `torchtextutils`:
  - a chain of generator stages: tokenizer, batcher, function mapper, context windower;
  - a batch encoder;
  - two in-place noisifiers;
  - a vocabulary class;
  - a word iterator;
- the older root modules `vocab.py`, `preprocessor.py` and `generator.py`:
  - a vocabulary with reserved tokens given as keyword arguments;
  - an encoder that noises the unpadded lists;
  - a data generator that sorts each batch by length.

This project models all of those operations and proves what they promise.

How the program is represented:

- **Streams.** A Python generator stage is a finite sequence. A stage that can
  raise produces `Outcomes.Run`: the items it yielded before the first
  exception, plus that exception. Every exception the modelled code raises is a
  constructor of `Outcomes.Error`, and a call that may raise returns a
  `Result`.
- **Tensors.** A tensor is a nested sequence (`Tensors.Encoded` is the
  `(batch, lens)` pair). The in-place noisifiers work on an `array2<int>`, one
  row at a time. The two vocabulary classes are Dafny classes whose methods
  update `words`, `f2i` and `i2f` in place. The copy-and-edit loops of
  `_add_noise` run over an `array<int>`.
- **Randomness.** Each call of `np.random.permutation` followed by
  `round(l * prob)` is a `Noise.Draw`: the permutation that was drawn and the
  rounded count. Only draws that really are permutations of `0 .. l-1` are
  accepted (`Noise.IsPermutation`).
- **Callables.** `word_iterator`, `preprocessor` and `func` are function
  parameters. A preprocessor that may raise returns a `Result`.

Files, one module each:

| file | module | models |
|---|---|---|
| outcomes.dfy | Outcomes | Option, Result, the exceptions, `Run` |
| seq_facts.dfy | SeqFacts | two generic sequence facts used by the loop proofs |
| tensors.dfy | Tensors | `max`, lengths, right-padding to the longest row |
| words.dfy | Words | `torchtextutils/iterator/words.py` |
| generator.dfy | Generator | `torchtextutils/data/generator.py` |
| batch_preprocessor.dfy | BatchPreprocessing | `torchtextutils/data/preprocessor/batch.py` |
| noise.dfy | Noise | `torchtextutils/data/preprocessor/noise.py` |
| vocab_tables.dfy | VocabTables | the tables and lookups both vocabularies share |
| package_vocab.dfy | PackageVocab | `torchtextutils/vocab.py` |
| legacy_vocab.dfy | LegacyVocab | `vocab.py` |
| legacy_preprocessor.dfy | LegacyPreprocessing | `preprocessor.py` |
| legacy_generator.dfy | LegacyGeneration | `generator.py` |

Behaviour worth knowing:

- **Undersized context batch.** If `n_before` or `n_after` is nonzero, a
  batch with at most `n_before + n_after` rows makes `torch.cat` of an empty
  list raise (`Error.EmptyConcat`).
- **No configuration check.** The context windower accepts
  `n_before = n_after = 0`. Each row is then its own context, whatever
  `predict_self` says.
- **Preset wiring.** `create_generator_st` passes its arguments positionally.
  `n_before` lands in the `batch_first` slot, `n_after` becomes the number of
  rows before, and the number of rows after stays at its default of 1.
  Without pinning, the preset returns the preprocessed batches and the
  context stage is never pulled.
- **Package `remove`.** `Vocabulary.remove` in the package reads an attribute
  `reserved` that the class never sets. Every removal of a present word
  therefore raises AttributeError and changes nothing.
- **Root `remove`.** The root `Vocabulary.remove` checks the word against the
  keyword *names* (`pad`, `unk`, ...), not the reserved tokens.
- **Id reuse after removal.** After a removal, the root `add` hands out
  `len(words)`, which can be an id a live word still holds. A later removal
  can then raise KeyError half-way through.
- **Noise in the root encoder.** The root encoder's noise can move or
  overwrite the begin and end markers.

## Model

| member | source | states |
|---|---|---|
| Words.SplitWhitespace | torchtextutils/iterator/words.py:9-11 | without a delimiter every word is non-empty and contains no whitespace |
| Words.SplitWhitespaceRebuilds | torchtextutils/iterator/words.py:9-11 | the words are the maximal non-whitespace runs: putting the whitespace gaps back rebuilds the sentence exactly, every gap is whitespace only, and the gaps between two words are non-empty |
| Words.NoTokensIffAllSpace | torchtextutils/iterator/words.py:9-11 | a sentence yields no words exactly when it is empty or all whitespace |
| Words.FindFromLeftmost | torchtextutils/iterator/words.py:12-13 | the delimiter search reports an occurrence exactly when there is one, and it is the leftmost one |
| Words.JoinSplitOn | torchtextutils/iterator/words.py:12-13 | joining the pieces with the delimiter gives back the sentence |
| Words.SplitOnCount | torchtextutils/iterator/words.py:12-13 | there is one more piece than there are non-overlapping occurrences of the delimiter, counted independently by a left-to-right scan |
| Words.SplitOnPiecesFree | torchtextutils/iterator/words.py:12-13 | no piece contains the delimiter; empty pieces are kept |
| Words.SplitWordIterator | torchtextutils/iterator/words.py:4-17 | the iterator raises exactly for an empty delimiter; without a delimiter it yields exactly `SplitWhitespace(sent)`, whose words SplitWhitespaceRebuilds shows are the maximal non-whitespace runs; with one it yields exactly `SplitOn(sent, d)`, whose pieces join back to the sentence (JoinSplitOn), are one more than the delimiter count (SplitOnCount), contain no delimiter (SplitOnPiecesFree) and are cut at the leftmost occurrences (FindFromLeftmost) |
| Generator.EffectiveSize | torchtextutils/data/generator.py:38-39 | the batch size the loop really uses is at least 1 and equals `batch_size` when that is positive |
| Generator.BatchesShape | torchtextutils/data/generator.py:32-48 | every batch is non-empty and at most `batch_size` long, all but the last are full; with residual the batches concatenate to the input, without it to the longest prefix whose length is a multiple of `batch_size` |
| Generator.FullBatchesRebuild | torchtextutils/data/generator.py:35-47 | the full batches followed by the leftover give back the input |
| Generator.FullBatchesCount | torchtextutils/data/generator.py:35-47 | the input has `batch_size` items per full batch plus the leftover |
| Generator.FullBatchesSized | torchtextutils/data/generator.py:38-41 | every full batch has exactly `batch_size` items |
| Generator.ChunksOfPrefix | torchtextutils/data/generator.py:35-44 | batches already cut off in front of the rest of the stream are emitted unchanged |
| Generator.BatchGenerate | torchtextutils/data/generator.py:32-48 | the accumulate/yield/reset loop yields exactly the full batches and, when residual batches are allowed and something is left, the leftover |
| Generator.Tokenize | torchtextutils/data/generator.py:58-65 | every yielded word list fits `max_length` |
| Generator.TokenizeOne | torchtextutils/data/generator.py:59-65 | one sentence yields its words when they fit and nothing otherwise |
| Generator.TokenizeAppend | torchtextutils/data/generator.py:59-65 | the tokenizer works sentence by sentence, in order: on concatenated inputs it yields the two outputs one after the other |
| Generator.TokenizeKeepsAll | torchtextutils/data/generator.py:58-65 | without `max_length` every sentence is kept, element `i` being sentence `i`'s words |
| Generator.MapRun | torchtextutils/data/generator.py:73-75 | the mapper yields at most one value per item, one per item when nothing raises |
| Generator.MapRunLaw | torchtextutils/data/generator.py:73-75 | element `i` is `func(item_i)` for every item before the first that raises, and the reported exception is that item's |
| Generator.MapRunAppend | torchtextutils/data/generator.py:73-75 | on concatenated inputs the second part is reached only if the first raised nothing |
| Generator.Then | torchtextutils/data/generator.py:111-156 | a stage over an upstream run yields its mapping of every item the upstream yielded, in order, up to its own first exception; it ends cleanly exactly when the upstream did and its own mapping raised nothing; its exception is its own first one, and otherwise the upstream's |
| Generator.PySlice | torchtextutils/data/generator.py:114-115 | Python slicing agrees with the plain slice when the bounds are in range |
| Generator.DropCentre | torchtextutils/data/generator.py:127-148 | dropping the centre keeps the `n_bef` before offsets followed by the `n_aft` after offsets, skipping offset `n_bef` |
| Generator.Windows | torchtextutils/data/generator.py:118-125 | window `i` holds `offset` consecutive entries starting at entry `i` |
| Generator.ContextWindows | torchtextutils/data/generator.py:117-148 | entry `k` of window `i` is original entry `i + k`, skipping the centre `i + n_bef` unless `predict_self`; the window size is `n_bef + n_aft` (+1 with `predict_self`) |
| Generator.ContextWindowLaw | torchtextutils/data/generator.py:106-156 | with some context asked for, a batch is accepted exactly when it has more than `n_bef + n_aft` rows and otherwise raises; the input is rows `[n_bef, B - n_aft)`, and each input row gets its window of rows and of lengths |
| Generator.ContextWithoutNeighbours | torchtextutils/data/generator.py:114-115 | with no context on either side, whatever `predict_self` is, the input is the whole batch and each row's context is that row alone (the `else` branch at lines 149-151) |
| Generator.ContextOf | torchtextutils/data/generator.py:106-156 | one batch raises exactly when some context is asked for and it has at most `n_bef + n_aft` rows, and the error is the empty concatenation; a result has one context window per input row and keeps the layout flag; ContextWindowLaw and ContextWithoutNeighbours give the contents |
| Generator.ContextGenerate | torchtextutils/data/generator.py:106-156 | each yielded item is the context of the upstream batch at the same position; the stream ends cleanly exactly when the upstream did and every batch was large enough, and then it yields one context per upstream batch; otherwise the reported exception is the empty-concatenation error of the first batch too small for its window or, when every upstream batch was handled, the upstream's own exception |
| Generator.SourceOffset | torchtextutils/data/generator.py:127-148 | without `predict_self` no output offset reads the centre |
| Generator.CreateGeneratorAE | torchtextutils/data/generator.py:159-173 | item `j` is the preprocessor's output for batch `j` of the tokenized sentences, up to the first batch the preprocessor fails on, whose error is reported; BatchesShape gives the batches |
| Generator.CreateGeneratorST | torchtextutils/data/generator.py:176-193 | a context stream is returned exactly when memory is pinned; without pinning it is the autoencoder preset's output; with pinning it is the context stage over that output, with `n_after` rows before, one after, and layout flag `n_before != 0`; SkipThoughtWiring states the consequences |
| Generator.SkipThoughtWiring | torchtextutils/data/generator.py:176-193 | without pinning, the skip-thought preset is the autoencoder preset; with pinning, every window has `n_after` rows before and one after, and the layout flag is `n_before != 0` |
| Tensors.MaxOf | torchtextutils/data/preprocessor/batch.py:26 | `max` is an upper bound that is attained |
| Tensors.Lengths | torchtextutils/data/preprocessor/batch.py:25 | one length per row, equal to that row's length |
| Tensors.PadToLongest | torchtextutils/data/preprocessor/batch.py:26-27 | an empty batch raises at `max`; otherwise every row is as wide as the longest input row, which some row attains, starts with its input row and is padding beyond it |
| BatchPreprocessing.FramedRow | torchtextutils/data/preprocessor/batch.py:15-23 | the row is the optional begin marker, each word's id or the unknown id, and the optional end marker |
| BatchPreprocessing.FramedRows | torchtextutils/data/preprocessor/batch.py:15-23 | the three comprehensions frame every sentence, in order |
| BatchPreprocessing.Encode | torchtextutils/data/preprocessor/batch.py:14-31 | encoding fails exactly on an empty batch, with the `max` error |
| BatchPreprocessing.EncodeLaw | torchtextutils/data/preprocessor/batch.py:14-31 | one row and one length per sentence, in order; each length counts the words and markers; every row is as wide as the longest length, which is attained; below its length a row is the framed sentence, beyond it padding |
| BatchPreprocessing.EncodedRowStartsFramed | torchtextutils/data/preprocessor/batch.py:15-27 | each encoded row starts with its framed sentence |
| BatchPreprocessing.UnknownWordsBecomeUnk | torchtextutils/data/preprocessor/batch.py:15-17 | a word missing from the vocabulary never makes encoding fail and is encoded as the unknown id |
| Noise.RandomIdx | torchtextutils/data/preprocessor/noise.py:4-8 | the drawn indices are distinct, lie in `[0, l)`, number `round(l * prob)` capped at `l`, and are none when `l <= 0` |
| Noise.OmittedAt | torchtextutils/data/preprocessor/noise.py:22-26 | omission writes the unknown id exactly at the drawn positions and leaves every other entry |
| Noise.ExchangePermutes | torchtextutils/data/preprocessor/noise.py:39-43 | exchanging two neighbours keeps the row's multiset |
| Noise.SwappedPermutes | torchtextutils/data/preprocessor/noise.py:39-43 | any sequence of exchanges keeps the row's multiset |
| Noise.SwappedFrame | torchtextutils/data/preprocessor/noise.py:39-43 | a position that no drawn exchange involves keeps its entry |
| Noise.OmitRowLaw | torchtextutils/data/preprocessor/noise.py:22-26 | omission keeps the length, writes the unknown id exactly at the drawn positions, all inside `[1, l - 1)`, and leaves rows with `l <= 2` alone |
| Noise.SwapRowLaw | torchtextutils/data/preprocessor/noise.py:39-43 | the swap keeps each row a permutation of itself, moves only positions inside `[1, l - 1)`, and leaves rows with `l <= 3` alone |
| Noise.AliasedSwapOnce | torchtextutils/data/preprocessor/noise.py:42-43 | the tensor "swap" at drawn index 0 on a row of four copies the third entry over the second |
| Noise.AliasedSwapLosesIds | torchtextutils/data/preprocessor/noise.py:43 | on `[1, 5, 6, 2]` with the single draw 0 the tensor code yields `[1, 6, 6, 2]`, which is not a permutation of the row |
| Noise.StoreInRow | torchtextutils/data/preprocessor/noise.py:26 | `sent[p] = v` changes one entry of one row and nothing else |
| Noise.OmitInRow | torchtextutils/data/preprocessor/noise.py:25-26 | the omission loop leaves the row equal to its omitted version and the other rows unchanged |
| Noise.ExchangeInRow | torchtextutils/data/preprocessor/noise.py:43 | a real exchange of `sent[p]` and `sent[p + 1]`, nothing else changes |
| Noise.SwapInRow | torchtextutils/data/preprocessor/noise.py:42-43 | the corrected swap loop leaves the row equal to its swapped version and the other rows unchanged |
| Noise.AliasedSwapInRow | torchtextutils/data/preprocessor/noise.py:42-43 | the swap loop as written, two stores each reading the row's current entry, leaves the row equal to its aliased version |
| Noise.OmissionNoisify | torchtextutils/data/preprocessor/noise.py:16-26 | nothing changes when `omit_prob <= 0`; otherwise each zipped row becomes its omitted version, depending only on that row, its length and its draw, and rows past the shorter of `batch` and `lens` stay; `lens` is only read |
| Noise.SwapNoisify | torchtextutils/data/preprocessor/noise.py:33-43 | the same for the swap noisifier with a real exchange |
| Noise.AliasedSwapNoisify | torchtextutils/data/preprocessor/noise.py:33-43 | the same for the swap noisifier as written on a tensor batch |
| VocabTables.DenseTablesLaw | torchtextutils/vocab.py:60-65 | the rebuilt tables hold exactly the listed words and exactly the ids `0 .. n-1`, id `i` names `words[i]` and each word's id is a position where it is listed |
| VocabTables.DenseTablesOfDistinct | torchtextutils/vocab.py:60-65 | without repeats `words[i] ↦ i` and the two rebuilt tables are inverse |
| VocabTables.Dedup | vocab.py:25-26 | adding tokens with duplicates ignored keeps each distinct token once |
| VocabTables.DedupSnoc | vocab.py:25-26 | adding one more token appends it exactly when it is new |
| VocabTables.DedupOfDistinct | vocab.py:25-26 | tokens without repeats are all kept, in order |
| VocabTables.DenseSnoc | torchtextutils/vocab.py:29-33 | appending a word under id `len(words)` extends the dense tables by that one entry |
| VocabTables.KeysCount | torchtextutils/vocab.py:80-81 | a table keyed by exactly the words of a list without repeats has one entry per word |
| VocabTables.DenseF2iSize | torchtextutils/vocab.py:80-81 | the rebuilt word table of a list without repeats has one entry per word |
| VocabTables.FirstIndex | vocab.py:58 | the position `list.remove` deletes holds `w`, and no earlier position does |
| VocabTables.RemoveFirst | vocab.py:58 | `words.remove(w)` deletes the first occurrence of `w`, the other words keeping their order, so the multiset loses exactly one `w` |
| VocabTables.RemoveFirstKeeps | vocab.py:58 | every other word stays listed |
| VocabTables.RemoveFirstOfDistinct | vocab.py:58 | on a list without repeats exactly `w` leaves and the list stays without repeats |
| VocabTables.Collect | torchtextutils/vocab.py:72-73 | an iterable lookup succeeds exactly when each element does, keeping order; otherwise it raises the first failing element's error |
| VocabTables.Lookup | torchtextutils/vocab.py:67-75 | an id is found exactly when it is in `i2f`, a word exactly when it is in `f2i`; a missing key raises KeyError |
| VocabTables.LookupElementwise | torchtextutils/vocab.py:72-73 | an iterable key gives its elements' values in order, or the error of its first failing element |
| VocabTables.Contains | torchtextutils/vocab.py:77-78 | for an int or a str, membership holds exactly when the lookup would succeed; a list key raises TypeError, because it is unhashable |
| PackageVocab.Vocabulary.constructor | torchtextutils/vocab.py:17-20 | the vocabulary starts empty and valid |
| PackageVocab.Vocabulary.Add | torchtextutils/vocab.py:22-35 | a known word returns its id, or raises when duplicates are not ignored, changing nothing; a new word is appended under id `len(words)`; ids stay `0 .. n-1` |
| PackageVocab.Vocabulary.Remove | torchtextutils/vocab.py:37-52 | an absent word raises ValueError; a present word raises at the missing `reserved` attribute; nothing changes either way |
| PackageVocab.Vocabulary.ReconstructIndices | torchtextutils/vocab.py:54-65 | the tables are rebuilt densely from the word list, which on a valid vocabulary gives back the same tables |
| PackageVocab.Vocabulary.Get | torchtextutils/vocab.py:67-75 | on a valid vocabulary an id is found exactly when it is below `len(words)` and names `words[i]`; a word is found exactly when it is listed, at its id's position |
| PackageVocab.Vocabulary.Contains | torchtextutils/vocab.py:77-78 | membership is "listed word" or "id below `len(words)`"; a list raises TypeError |
| PackageVocab.Vocabulary.Len | torchtextutils/vocab.py:80-81 | the size of `f2i` is the number of words |
| PackageVocab.DenseIds | torchtextutils/vocab.py:29-33 | with no removals every word is found under its position and every position names its word |
| LegacyVocab.Tokens | vocab.py:25 | the tokens of the keyword arguments, in keyword order |
| LegacyVocab.NamedTokens | vocab.py:17-21 | the stored dictionary maps each keyword name to its token |
| LegacyVocab.DenseTablesValid | vocab.py:66-71 | rebuilt tables are coherent, and valid when no word is listed twice |
| LegacyVocab.RemoveKeepsTables | vocab.py:54-58 | a successful removal deletes only `w` from the list and `f2i`, and its id from `i2f`, keeping the tables valid |
| LegacyVocab.Vocabulary.constructor | vocab.py:17-26 | the reserved tokens are added in keyword order, so `k` distinct tokens take ids `0 .. k-1` and a token given twice is added once |
| LegacyVocab.Vocabulary.Add | vocab.py:28-41 | the package rules for a known word; a new word is appended under id `len(words)` and overwrites whatever `i2f` held at that id |
| LegacyVocab.Vocabulary.Remove | vocab.py:43-58 | an absent word or a keyword name raises ValueError and changes nothing; otherwise `w` leaves `f2i`, then either KeyError is raised (its id has lost its `i2f` entry) or its id leaves `i2f` and its slot leaves the list, with every other id unchanged |
| LegacyVocab.Vocabulary.ReconstructIndices | vocab.py:60-71 | the ids are re-densified in list order |
| LegacyVocab.Vocabulary.Get | vocab.py:85-93 | on a valid vocabulary a word is found exactly when listed, and a found id names a word whose id it is |
| LegacyVocab.Vocabulary.Contains | vocab.py:95-96 | membership is a listed word or an id in `i2f`; a list raises TypeError |
| LegacyVocab.Vocabulary.Len | vocab.py:98-99 | `len` is the size of `f2i`, the number of listed words on a valid vocabulary |
| LegacyVocab.ThreeWords | vocab.py:28-41 | three `add` calls give the ids 0, 1, 2 |
| LegacyVocab.IdReuse | vocab.py:35-39 | after removing the middle of three words, `add` gives the new word id 2, which the third word still holds |
| LegacyVocab.StaleKeyError | vocab.py:54-58 | after that reuse, removing the third word deletes the new word's `i2f` entry, and removing the new word then raises KeyError, leaving it listed without an id |
| LegacyVocab.ReservedByName | vocab.py:50-52 | with `pad="<PAD>", unk="unk"` the pad token can be removed and `unk` cannot, because it equals its keyword name |
| LegacyVocab.TwoReserved | vocab.py:17-26 | two keyword arguments with different names and tokens give the list of both tokens, the dictionary of both names and ids 0 and 1 |
| LegacyPreprocessing.Framed | preprocessor.py:38-39 | the unpadded list is begin marker, each word's id or the unknown id, end marker |
| LegacyPreprocessing.NoisySentence | preprocessor.py:18-35 | the noisy list is as long as the input; NoisySentenceLaw gives its contents |
| LegacyPreprocessing.SwapLoop | preprocessor.py:25-26 | the swap loop exchanges neighbours at each drawn index, in draw order |
| LegacyPreprocessing.OmitLoop | preprocessor.py:32-33 | the omission loop writes the unknown id at each drawn position |
| LegacyPreprocessing.AddNoise | preprocessor.py:18-35 | `_add_noise` on its copy computes exactly the noisy sentence |
| LegacyPreprocessing.NoisySentenceLaw | preprocessor.py:18-35 | the noise keeps the length; the swap phase is a permutation; afterwards exactly the drawn positions, anywhere in the list, hold the unknown id |
| LegacyPreprocessing.NoiseReachesMarkers | preprocessor.py:22-33 | the noise can overwrite the begin marker and move it to position 1 |
| LegacyPreprocessing.Rows | preprocessor.py:38-42 | one list per sentence, in order, `len + 2` long: the framed sentence, or its noisy version when noise is asked for |
| LegacyPreprocessing.Preprocess | preprocessor.py:37-47 | the encoder fails exactly on an empty batch, at `max` |
| LegacyPreprocessing.PreprocessLaw | preprocessor.py:37-47 | one row per sentence, all as wide as the longest `len + 2`, which is attained; below `len + 2` a row is the framed list, noised when asked, so padding is never noised; beyond it padding |
| LegacyGeneration.Insert | generator.py:65 | inserting an index keeps every index in range and adds exactly that index |
| LegacyGeneration.ArgSortPermutes | generator.py:65 | the sort's index vector is a rearrangement of `0 .. n-1` |
| LegacyGeneration.ArgSortSorted | generator.py:65 | under the sort's index order the lengths never increase |
| LegacyGeneration.InsertSorted | generator.py:65 | inserting keeps the order sorted |
| LegacyGeneration.SortedKeysPermute | generator.py:65 | the sorted lengths are the lengths rearranged |
| LegacyGeneration.ReorderInsert | generator.py:65-67 | reading the keys through an inserted index adds exactly the inserted key |
| LegacyGeneration.BatchLengths | generator.py:60 | each length is the word count plus 2 |
| LegacyGeneration.EmitBatchLaw | generator.py:60-72 | a batch fails only when the encoder returns fewer rows than sentences; otherwise the lengths never increase and are the `len + 2` values rearranged, and input row, target row and length `j` come from the same sentence, encoded with and without noise |
| LegacyGeneration.Generate | generator.py:46-77 | the loop yields exactly the full batches of the lines that pass the length filter, mapped through the batch emitter, stopping at the first that raises; a trailing partial batch is dropped |
| LegacyGeneration.Accumulate | generator.py:55-75 | one filtered line is appended to the batch; a full batch is emitted and the batch reset |
| LegacyGeneration.Drained | generator.py:77 | when the lines run out, the partial batch left over is not emitted |
| LegacyGeneration.TokenizeStep | generator.py:49-55 | one more line adds its words exactly when there are at most `max_length` of them |
| LegacyGeneration.EmittedFailure | generator.py:57-72 | once a batch has raised, the batches of the remaining lines are never reached |

## Left out

- File reading (`torchtextutils/iterator/files.py`, `DirectoryTextFilesReader` in `generator.py`) is not modelled. It is filesystem I/O; the model starts from the sequence of lines or sentences.
- `MemoryPinner` and the `pin_memory()` calls are left out. They are device memory operations and do not change values. `Generator.CreateGeneratorST` keeps the `pin_memory` flag only because the flag chooses which stream is returned.
- `populate_vocab`, `create_parser`, `main` and the pickle dump in both vocabulary files are left out. They are command-line parsing and file I/O, and their id order depends on `Counter` and `set` iteration.
- `torchtextutils/common.py` is not part of this model. It is the iterator protocol; streams are finite sequences here.
- `ImmutablePropertiesObject` (the `ipo` module) is not part of this model. The reserved names and ids are plain fields, and the encoders take the four reserved ids as given.
- The package `Vocabulary()` takes no arguments, so its test script's keyword construction would fail. The test script is not part of this model.
- Noise.RandomIdx: `round(l * prob)` is a supplied count, not computed from a float. Banker's rounding and the probability itself are not modelled, and neither is the randomness of the permutation.
- LegacyPreprocessing.Preprocess: the randomness of `_add_noise` is a supplied sequence of draws, one per sentence.
- LegacyGeneration.Generate: the root preprocessor is a function parameter `(batch, noise) -> rows`, so the noisy encoding is fixed by that function rather than drawn anew on each call.
- LegacyGeneration.ArgSortDescending: `torch.sort` does not promise an order among equal lengths. The model uses the stable order, and the proved properties (sorted, a permutation, rows kept with their lengths) do not depend on that choice.
- Generator.ContextOf: only the `batch_first=True` layout is built. The flag is recorded in `ContextBatch.batchFirst`; `False` would only exchange the first two tensor axes.
- Generator.ContextOf: Python's negative slice bounds when the batch has fewer than `n_after` rows are followed through `Generator.PySlice` but not separately proved about. Such batches raise anyway whenever some context is asked for.
- Generator.Tokenize: `max_length` is an optional integer. `word_iterator` is a function from a sentence to its words; the package default is `Words.SplitWordIterator` without a delimiter, which is `Words.SplitWhitespace`.
- VocabTables.Lookup: a key that is neither an int, a str nor an iterable (the `Unknown type` ValueError) cannot be built from `VocabTables.Key`.
- VocabTables.Contains: `Key.Keys` stands for a Python list. Hashable iterables such as tuples are not modelled: `in` returns False for them instead of raising, while `__getitem__` would look up their elements.
- Noise.OmissionNoisify, Noise.SwapNoisify and Noise.AliasedSwapNoisify require every zipped length to be at most the row width (`Noise.DrawsFit`). A longer length would make a drawn index reach past the row and raise IndexError in the source, and that error path is not modelled. Both encoders produce lengths that meet the condition (`BatchPreprocessing.EncodeLaw`).
- `torch.LongTensor`, `clone`, `contiguous`, `unsqueeze`, `narrow` and `cat` are nested sequences. Only the one failure that matters, `cat` of an empty list, is modelled.

## Findings

| source | as written | input that shows it | evidently intended | confidence | as-written member | corrected member |
|---|---|---|---|---|---|---|
| torchtextutils/data/preprocessor/noise.py:43 | the tuple assignment on a tensor row evaluates to two views of the row, so after the first store both positions hold the old right-hand entry and one id is lost | row `[1, 5, 6, 2]`, length 4, single drawn index 0: the result is `[1, 6, 6, 2]` | exchange the two entries, giving `[1, 6, 5, 2]`, a permutation of the row | medium; not executed. Depends on the torch version: from PyTorch 0.4 on, integer indexing of a row returns a 0-dimensional view and the ids are lost. Before 0.4 it returned a Python scalar and the swap worked. Line 43 is reached only when `lens` is a plain list. The package encoder returns `lens` as a LongTensor (batch.py:30), so each `l` is a 0-dimensional tensor, and `round` and `np.random.permutation` at lines 5-6 very likely raise first. The model's integer `lens` cannot show this | Noise.AliasedSwapLosesIds | Noise.SwapRowLaw |
