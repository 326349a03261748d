/**
 * Nested sequences standing in for the LongTensors the pipeline builds: an
 * encoded batch is a list of id rows with one true length per row, and both
 * encoders right-pad their rows to the longest row of the batch.
 */
module Tensors {
  import opened Outcomes

  /** The pair `(batch, lens)` a preprocessor returns. */
  datatype Tensors = Tensors(rows: seq<seq<int>>, lens: seq<int>)

  /** A batch whose length vector has one entry per row, as both encoders produce. */
  type Encoded = t: Tensors | |t.rows| == |t.lens| witness Tensors([], [])

  /** `max(xs)` over a non-empty list. */
  function MaxOf(xs: seq<int>): (m: int)
    requires xs != []
    ensures forall i :: 0 <= i < |xs| ==> xs[i] <= m
    ensures exists i :: 0 <= i < |xs| && xs[i] == m
    decreases |xs|
  {
    if |xs| == 1 then xs[0]
    else
      var rest := MaxOf(xs[1..]);
      assert forall i :: 1 <= i < |xs| ==> xs[i] == xs[1..][i - 1];
      if xs[0] >= rest then xs[0] else rest
  }

  /** The row lengths of a list of rows. */
  function Lengths(rows: seq<seq<int>>): (lens: seq<int>)
    ensures |lens| == |rows|
    ensures forall i :: 0 <= i < |rows| ==> lens[i] == |rows[i]|
  {
    seq(|rows|, i requires 0 <= i < |rows| => |rows[i]|)
  }

  /** `s + [pad] * (width - len(s))`. */
  function PadRow(row: seq<int>, width: int, pad: int): seq<int>
  {
    row + seq(if width > |row| then width - |row| else 0, _ => pad)
  }

  /**
   * `max_len = max(lens)` followed by right-padding every row to `max_len`;
   * `max` of an empty batch raises ValueError.
   */
  function PadToLongest(rows: seq<seq<int>>, pad: int): (r: Result<seq<seq<int>>>)
    ensures r.Err? <==> rows == []
    ensures r.Err? ==> r.error == EmptyBatch
    ensures r.Ok? ==> |r.value| == |rows|
    ensures r.Ok? ==> forall i :: 0 <= i < |rows| ==> |r.value[i]| == |r.value[0]|
    ensures r.Ok? ==> exists i :: 0 <= i < |rows| && |rows[i]| == |r.value[0]|
    ensures r.Ok? ==> forall i :: 0 <= i < |rows| ==> |rows[i]| <= |r.value[i]| && r.value[i][..|rows[i]|] == rows[i]
    ensures r.Ok? ==> forall i, j :: 0 <= i < |rows| && |rows[i]| <= j < |r.value[i]| ==> r.value[i][j] == pad
  {
    if rows == [] then Err(EmptyBatch)
    else
      var lens := Lengths(rows);
      var width := MaxOf(lens);
      Ok(seq(|rows|, i requires 0 <= i < |rows| => PadRow(rows[i], width, pad)))
  }
}
