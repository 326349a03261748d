/**
 * BatchPreprocessor: turns a batch of word lists into a right-padded id
 * matrix and a length vector, mapping unknown words to the unknown-token id
 * and framing every row with the begin/end markers it is configured with.
 */
module BatchPreprocessing {
  import opened Outcomes
  import opened Tensors

  /**
   * The preprocessor's configuration: the vocabulary's token-to-id table and
   * the ids of its reserved tokens, looked up once at construction.
   */
  datatype BatchPreprocessor = BatchPreprocessor(
    f2i: map<string, int>,
    unkIdx: int,
    padIdx: int,
    bosIdx: int,
    eosIdx: int,
    addBos: bool,
    addEos: bool)

  /** The id of one word: its table entry, or the unknown-token id. */
  function WordId(f2i: map<string, int>, unkIdx: int, w: string): int {
    if w in f2i then f2i[w] else unkIdx
  }

  /** What one row holds before padding: optional begin marker, word ids, optional end marker. */
  function FramedRow(p: BatchPreprocessor, words: seq<string>): (row: seq<int>)
    ensures |row| == |words| + (if p.addBos then 1 else 0) + (if p.addEos then 1 else 0)
    ensures p.addBos ==> row[0] == p.bosIdx
    ensures p.addEos ==> row[|row| - 1] == p.eosIdx
    ensures forall j :: 0 <= j < |words| ==> row[j + (if p.addBos then 1 else 0)] == WordId(p.f2i, p.unkIdx, words[j])
  {
    (if p.addBos then [p.bosIdx] else [])
    + seq(|words|, j requires 0 <= j < |words| => WordId(p.f2i, p.unkIdx, words[j]))
    + (if p.addEos then [p.eosIdx] else [])
  }

  /**
   * The first three stages of `BatchPreprocessor.__call__`, one
   * comprehension each: map words to ids, prepend the begin marker, append
   * the end marker. Row `i` is sentence `i` framed.
   */
  function FramedRows(p: BatchPreprocessor, batch: seq<seq<string>>): (rows: seq<seq<int>>)
    ensures |rows| == |batch|
    ensures forall i :: 0 <= i < |batch| ==> rows[i] == FramedRow(p, batch[i])
  {
    var ids := seq(|batch|, i requires 0 <= i < |batch| =>
      seq(|batch[i]|, j requires 0 <= j < |batch[i]| => WordId(p.f2i, p.unkIdx, batch[i][j])));
    var withBos := if p.addBos then seq(|ids|, i requires 0 <= i < |ids| => [p.bosIdx] + ids[i]) else ids;
    var withEos := if p.addEos then seq(|withBos|, i requires 0 <= i < |withBos| => withBos[i] + [p.eosIdx]) else withBos;
    assert forall i :: 0 <= i < |batch| ==> withEos[i] == FramedRow(p, batch[i]);
    withEos
  }

  /** `BatchPreprocessor.__call__`: frame every sentence, take the lengths, pad to the longest. */
  function Encode(p: BatchPreprocessor, batch: seq<seq<string>>): (r: Result<Encoded>)
    ensures r.Err? <==> batch == []
    ensures r.Err? ==> r.error == EmptyBatch
  {
    var framed := FramedRows(p, batch);
    var lens := Lengths(framed);
    match PadToLongest(framed, p.padIdx)
    case Err(e) => Err(e)
    case Ok(rows) =>
      var encoded: Encoded := Tensors(rows, lens);
      Ok(encoded)
  }

  /**
   * The encoder's promise about a non-empty batch: one row and one length per
   * sentence in order; each length counts the words and the markers; every
   * row is as wide as the longest length, which some row attains; below its
   * length a row holds the framed ids, at and beyond it only the pad id.
   */
  lemma EncodeLaw(p: BatchPreprocessor, batch: seq<seq<string>>)
    requires batch != []
    ensures Encode(p, batch).Ok?
    ensures var e := Encode(p, batch).value;
      && |e.rows| == |batch| && |e.lens| == |batch|
      && (forall i :: 0 <= i < |batch| ==>
            e.lens[i] == |batch[i]| + (if p.addBos then 1 else 0) + (if p.addEos then 1 else 0))
      && (forall i :: 0 <= i < |batch| ==> |e.rows[i]| == |e.rows[0]| && e.lens[i] <= |e.rows[i]|)
      && (exists i :: 0 <= i < |batch| && e.lens[i] == |e.rows[0]|)
      && (forall i :: 0 <= i < |batch| ==> e.rows[i][..e.lens[i]] == FramedRow(p, batch[i]))
      && (forall i, j :: 0 <= i < |batch| && e.lens[i] <= j < |e.rows[i]| ==> e.rows[i][j] == p.padIdx)
  {
    var framed := FramedRows(p, batch);
    assert Encode(p, batch).value.lens == Lengths(framed);
  }

  /** Row `i` of the encoding starts with sentence `i` framed. */
  lemma EncodedRowStartsFramed(p: BatchPreprocessor, batch: seq<seq<string>>, i: nat)
    requires i < |batch|
    ensures Encode(p, batch).Ok?
    ensures var row := Encode(p, batch).value.rows[i];
      |FramedRow(p, batch[i])| <= |row| && row[..|FramedRow(p, batch[i])|] == FramedRow(p, batch[i])
  {
    var framed := FramedRows(p, batch);
    assert Encode(p, batch).value.rows == PadToLongest(framed, p.padIdx).value;
  }

  /** A word the vocabulary does not hold never makes encoding fail: it becomes the unknown id. */
  lemma UnknownWordsBecomeUnk(p: BatchPreprocessor, batch: seq<seq<string>>, i: nat, j: nat)
    requires i < |batch| && j < |batch[i]| && batch[i][j] !in p.f2i
    ensures Encode(p, batch).Ok?
    ensures Encode(p, batch).value.rows[i][j + (if p.addBos then 1 else 0)] == p.unkIdx
  {
    EncodedRowStartsFramed(p, batch, i);
    var row := Encode(p, batch).value.rows[i];
    var framed := FramedRow(p, batch[i]);
    var k := j + (if p.addBos then 1 else 0);
    assert row[k] == row[..|framed|][k];
  }
}
