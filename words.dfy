/**
 * The word iterator (SplitWordIterator): a sentence is split either on runs
 * of whitespace, as Python's `str.split()` does, or on every non-overlapping
 * occurrence of an explicit delimiter, as `str.split(delimiter)` does.
 */
module Words {
  import opened Outcomes

  /** The characters Python's `str.split()` treats as whitespace. */
  predicate IsSpace(c: char) {
    c == ' ' || ('\t' <= c <= '\r') || ('\U{1C}' <= c <= '\U{1F}')
    || c == '\U{85}' || c == '\U{A0}' || c == '\U{1680}'
    || ('\U{2000}' <= c <= '\U{200A}') || c == '\U{2028}' || c == '\U{2029}'
    || c == '\U{202F}' || c == '\U{205F}' || c == '\U{3000}'
  }

  predicate NoSpace(t: string) {
    forall i :: 0 <= i < |t| ==> !IsSpace(t[i])
  }

  predicate AllSpace(t: string) {
    forall i :: 0 <= i < |t| ==> IsSpace(t[i])
  }

  // ---------------------------------------------------------------------------
  // Splitting on whitespace
  // ---------------------------------------------------------------------------

  /** Length of the leading run of non-whitespace characters of `s`. */
  function RunLength(s: string): (n: nat)
    ensures n <= |s|
    ensures NoSpace(s[..n])
    ensures n < |s| ==> IsSpace(s[n])
  {
    if s == [] || IsSpace(s[0]) then 0
    else
      var m := RunLength(s[1..]);
      assert s[..m + 1] == [s[0]] + s[1..][..m];
      m + 1
  }

  /** `s.split()`: the maximal runs of non-whitespace characters, in order. */
  function SplitWhitespace(s: string): (tokens: seq<string>)
    ensures forall i :: 0 <= i < |tokens| ==> tokens[i] != [] && NoSpace(tokens[i])
    decreases |s|
  {
    if s == [] then []
    else if IsSpace(s[0]) then SplitWhitespace(s[1..])
    else
      var n := RunLength(s);
      [s[..n]] + SplitWhitespace(s[n..])
  }

  /**
   * The whitespace around and between the tokens of `s`: the text before the
   * first token, between each pair of neighbours, and after the last one.
   */
  function Gaps(s: string): (gaps: seq<string>)
    ensures |gaps| == |SplitWhitespace(s)| + 1
    decreases |s|
  {
    if s == [] then [[]]
    else if IsSpace(s[0]) then
      var g := Gaps(s[1..]);
      [[s[0]] + g[0]] + g[1..]
    else
      [[]] + Gaps(s[RunLength(s)..])
  }

  /** gaps[0] + tokens[0] + gaps[1] + ... + tokens[n-1] + gaps[n]. */
  function Interleave(gaps: seq<string>, tokens: seq<string>): string
    requires |gaps| == |tokens| + 1
    decreases |tokens|
  {
    if tokens == [] then gaps[0]
    else gaps[0] + tokens[0] + Interleave(gaps[1..], tokens[1..])
  }

  /**
   * The tokens are the maximal non-whitespace runs: `s` is rebuilt exactly by
   * putting back the gaps, every gap is whitespace only, and the gaps between
   * two tokens are not empty (so no token could be extended or merged).
   */
  lemma {:induction false} SplitWhitespaceRebuilds(s: string)
    ensures Interleave(Gaps(s), SplitWhitespace(s)) == s
    ensures forall i :: 0 <= i < |Gaps(s)| ==> AllSpace(Gaps(s)[i])
    ensures forall i :: 0 < i < |Gaps(s)| - 1 ==> Gaps(s)[i] != []
  {
    InterleaveGaps(s);
    GapsAreSpace(s);
    InnerGapsNonEmpty(s);
  }

  /** Widening the first gap by one leading character widens the rebuilt text by that character. */
  lemma InterleaveConsGap(c: char, gaps: seq<string>, tokens: seq<string>)
    requires |gaps| == |tokens| + 1
    ensures Interleave([[c] + gaps[0]] + gaps[1..], tokens) == [c] + Interleave(gaps, tokens)
  {
    var wide := [[c] + gaps[0]] + gaps[1..];
    assert wide[1..] == gaps[1..];
  }

  /** An empty first gap before a new first token puts that token in front. */
  lemma InterleaveConsToken(token: string, gaps: seq<string>, tokens: seq<string>)
    requires |gaps| == |tokens| + 1
    ensures Interleave([[]] + gaps, [token] + tokens) == token + Interleave(gaps, tokens)
  {
    var g, t := [[]] + gaps, [token] + tokens;
    assert g[0] == [] && g[1..] == gaps;
    assert t[0] == token && t[1..] == tokens;
    assert Interleave(g, t) == [] + token + Interleave(gaps, tokens);
  }

  lemma {:induction false} InterleaveGaps(s: string)
    ensures Interleave(Gaps(s), SplitWhitespace(s)) == s
    decreases |s|
  {
    if s == [] {
    } else if IsSpace(s[0]) {
      var rest := s[1..];
      InterleaveGaps(rest);
      InterleaveConsGap(s[0], Gaps(rest), SplitWhitespace(rest));
      assert [s[0]] + rest == s;
    } else {
      var n := RunLength(s);
      var rest := s[n..];
      InterleaveGaps(rest);
      InterleaveConsToken(s[..n], Gaps(rest), SplitWhitespace(rest));
      assert s[..n] + rest == s;
    }
  }

  lemma {:induction false} GapsAreSpace(s: string)
    ensures forall i :: 0 <= i < |Gaps(s)| ==> AllSpace(Gaps(s)[i])
    decreases |s|
  {
    if s == [] {
    } else if IsSpace(s[0]) {
      var g := Gaps(s[1..]);
      GapsAreSpace(s[1..]);
      forall i | 0 <= i < |Gaps(s)| ensures AllSpace(Gaps(s)[i]) {
        if i == 0 {
          assert AllSpace(g[0]);
        } else {
          assert Gaps(s)[i] == g[i];
        }
      }
    } else {
      GapsAreSpace(s[RunLength(s)..]);
    }
  }

  lemma {:induction false} InnerGapsNonEmpty(s: string)
    ensures forall i :: 0 < i < |Gaps(s)| - 1 ==> Gaps(s)[i] != []
    decreases |s|
  {
    if s == [] {
    } else if IsSpace(s[0]) {
      var g := Gaps(s[1..]);
      InnerGapsNonEmpty(s[1..]);
      forall i | 0 < i < |Gaps(s)| - 1 ensures Gaps(s)[i] != [] {
        assert Gaps(s)[i] == g[i];
      }
    } else {
      var rest := s[RunLength(s)..];
      InnerGapsNonEmpty(rest);
      forall i | 0 < i < |Gaps(s)| - 1 ensures Gaps(s)[i] != [] {
        assert Gaps(s)[i] == Gaps(rest)[i - 1];
        if i == 1 {
          assert rest != [] && IsSpace(rest[0]);
        }
      }
    }
  }

  /** `s.split()` yields nothing exactly when `s` is all whitespace (or empty). */
  lemma {:induction false} NoTokensIffAllSpace(s: string)
    ensures SplitWhitespace(s) == [] <==> AllSpace(s)
    decreases |s|
  {
    if s != [] {
      if IsSpace(s[0]) {
        NoTokensIffAllSpace(s[1..]);
        if AllSpace(s[1..]) {
          forall i | 0 <= i < |s| ensures IsSpace(s[i]) {
            if i > 0 { assert s[i] == s[1..][i - 1]; }
          }
        } else {
          var i :| 0 <= i < |s[1..]| && !IsSpace(s[1..][i]);
          assert !IsSpace(s[i + 1]);
        }
      }
    }
  }

  // ---------------------------------------------------------------------------
  // Splitting on an explicit delimiter
  // ---------------------------------------------------------------------------

  predicate OccursAt(s: string, d: string, i: nat) {
    i + |d| <= |s| && s[i..i + |d|] == d
  }

  /** The leftmost occurrence of `d` in `s` at or after position `i`, if any. */
  function FindFrom(s: string, d: string, i: nat): (r: Option<nat>)
    ensures r.Some? ==> i <= r.value && OccursAt(s, d, r.value)
    decreases |s| - i
  {
    if i + |d| > |s| then None
    else if OccursAt(s, d, i) then Some(i)
    else FindFrom(s, d, i + 1)
  }

  /** `FindFrom` reports an occurrence exactly when there is one, and the leftmost one. */
  lemma {:induction false} FindFromLeftmost(s: string, d: string, i: nat)
    ensures FindFrom(s, d, i).Some? ==> forall j: nat :: i <= j < FindFrom(s, d, i).value ==> !OccursAt(s, d, j)
    ensures FindFrom(s, d, i).None? ==> forall j: nat :: i <= j ==> !OccursAt(s, d, j)
    decreases |s| - i
  {
    if i + |d| <= |s| && !OccursAt(s, d, i) {
      FindFromLeftmost(s, d, i + 1);
    }
  }

  /**
   * `s.split(d)` for a non-empty `d`, from position `i` on: cut at each
   * leftmost non-overlapping occurrence.
   */
  function SplitFrom(s: string, d: string, i: nat): (pieces: seq<string>)
    requires d != [] && i <= |s|
    ensures |pieces| >= 1
    decreases |s| - i
  {
    var f := FindFrom(s, d, i);
    if f.None? then [s[i..]] else [s[i..f.value]] + SplitFrom(s, d, f.value + |d|)
  }

  /** `s.split(d)` for a non-empty `d`. */
  function SplitOn(s: string, d: string): (pieces: seq<string>)
    requires d != []
    ensures |pieces| >= 1
  {
    SplitFrom(s, d, 0)
  }

  /** `d.join(pieces)`. */
  function Join(pieces: seq<string>, d: string): string
    requires pieces != []
    decreases |pieces|
  {
    if |pieces| == 1 then pieces[0] else pieces[0] + d + Join(pieces[1..], d)
  }

  /** Number of non-overlapping occurrences of `d` in `s` from position `i` on, scanning from the left. */
  function CountFrom(s: string, d: string, i: nat): nat
    requires d != []
    decreases |s| - i
  {
    if i + |d| > |s| then 0
    else if OccursAt(s, d, i) then 1 + CountFrom(s, d, i + |d|)
    else CountFrom(s, d, i + 1)
  }

  /** Number of non-overlapping occurrences of `d` in `s`, scanning from the left (`s.count(d)`). */
  function CountOccurrences(s: string, d: string): nat
    requires d != []
  {
    CountFrom(s, d, 0)
  }

  lemma JoinCons(p: string, tail: seq<string>, d: string)
    requires tail != []
    ensures Join([p] + tail, d) == p + d + Join(tail, d)
  {
    assert ([p] + tail)[1..] == tail;
  }

  /** Joining the pieces from position `i` with the delimiter gives back `s[i..]`. */
  lemma {:induction false} JoinSplitFrom(s: string, d: string, i: nat)
    requires d != [] && i <= |s|
    ensures Join(SplitFrom(s, d, i), d) == s[i..]
    decreases |s| - i
  {
    var f := FindFrom(s, d, i);
    if f.Some? {
      var j := f.value;
      var tail := SplitFrom(s, d, j + |d|);
      assert SplitFrom(s, d, i) == [s[i..j]] + tail;
      JoinSplitFrom(s, d, j + |d|);
      JoinCons(s[i..j], tail, d);
      ThreeSlices(s, i, j, j + |d|);
    } else {
      assert SplitFrom(s, d, i) == [s[i..]];
    }
  }

  lemma ThreeSlices(s: string, i: nat, j: nat, k: nat)
    requires i <= j <= k <= |s|
    ensures s[i..] == s[i..j] + s[j..k] + s[k..]
  {
  }

  /** Joining the pieces with the delimiter gives back the sentence. */
  lemma JoinSplitOn(s: string, d: string)
    requires d != []
    ensures Join(SplitOn(s, d), d) == s
  {
    JoinSplitFrom(s, d, 0);
  }

  /** The count from `i` is one per occurrence `FindFrom` reaches, jumping past each. */
  lemma {:induction false} CountAfterFind(s: string, d: string, i: nat)
    requires d != []
    ensures FindFrom(s, d, i).None? ==> CountFrom(s, d, i) == 0
    ensures FindFrom(s, d, i).Some? ==>
      CountFrom(s, d, i) == 1 + CountFrom(s, d, FindFrom(s, d, i).value + |d|)
    decreases |s| - i
  {
    if i + |d| <= |s| && !OccursAt(s, d, i) {
      CountAfterFind(s, d, i + 1);
    }
  }

  /** From any position there is one more piece than there are occurrences of the delimiter. */
  lemma {:induction false} SplitFromCount(s: string, d: string, i: nat)
    requires d != [] && i <= |s|
    ensures |SplitFrom(s, d, i)| == CountFrom(s, d, i) + 1
    decreases |s| - i
  {
    CountAfterFind(s, d, i);
    var f := FindFrom(s, d, i);
    if f.Some? {
      SplitFromCount(s, d, f.value + |d|);
    }
  }

  /** There is one more piece than there are occurrences of the delimiter. */
  lemma SplitOnCount(s: string, d: string)
    requires d != []
    ensures |SplitOn(s, d)| == CountOccurrences(s, d) + 1
  {
    SplitFromCount(s, d, 0);
  }

  /** `d` occurs nowhere in `t`. */
  predicate Free(t: string, d: string) {
    forall j: nat :: j <= |t| ==> !OccursAt(t, d, j)
  }

  /** A stretch of `s` in which `d` starts nowhere (and does not run past its end) is free of `d`. */
  lemma FreeSlice(s: string, d: string, lo: nat, hi: nat)
    requires lo <= hi <= |s|
    requires forall j: nat :: lo <= j && j + |d| <= hi ==> !OccursAt(s, d, j)
    ensures Free(s[lo..hi], d)
  {
    var t := s[lo..hi];
    forall j: nat | j <= |t| ensures !OccursAt(t, d, j) {
      if j + |d| <= |t| {
        var inner, outer := t[j..j + |d|], s[lo + j..lo + j + |d|];
        forall k | 0 <= k < |d| ensures inner[k] == outer[k] {
          assert t[j + k] == s[lo + j + k];
        }
        assert inner == outer;
        assert !OccursAt(s, d, lo + j);
      }
    }
  }

  /** No piece from position `i` on contains the delimiter (empty pieces are kept). */
  lemma {:induction false} SplitFromPiecesFree(s: string, d: string, i: nat)
    requires d != [] && i <= |s|
    ensures forall k :: 0 <= k < |SplitFrom(s, d, i)| ==> Free(SplitFrom(s, d, i)[k], d)
    decreases |s| - i
  {
    var f := FindFrom(s, d, i);
    var pieces := SplitFrom(s, d, i);
    FindFromLeftmost(s, d, i);
    if f.Some? {
      var rest := f.value + |d|;
      FreeSlice(s, d, i, f.value);
      SplitFromPiecesFree(s, d, rest);
      assert pieces == [s[i..f.value]] + SplitFrom(s, d, rest);
    } else {
      FreeSlice(s, d, i, |s|);
      assert s[i..|s|] == s[i..];
    }
  }

  /** No piece contains the delimiter (empty pieces are kept). */
  lemma SplitOnPiecesFree(s: string, d: string)
    requires d != []
    ensures forall k :: 0 <= k < |SplitOn(s, d)| ==> Free(SplitOn(s, d)[k], d)
  {
    SplitFromPiecesFree(s, d, 0);
  }

  // ---------------------------------------------------------------------------
  // SplitWordIterator
  // ---------------------------------------------------------------------------

  /**
   * The words `SplitWordIterator(sent, delimiter)` yields, in order: the
   * whitespace tokens without a delimiter, the delimiter pieces with one, and
   * the ValueError `str.split` raises for an empty delimiter.
   */
  function SplitWordIterator(sent: string, delimiter: Option<string>): (r: Result<seq<string>>)
    ensures r.Err? <==> delimiter == Some([])
    ensures r.Err? ==> r.error == EmptySeparator
    ensures delimiter.None? ==> r == Ok(SplitWhitespace(sent))
    ensures delimiter.Some? && delimiter.value != [] ==> r == Ok(SplitOn(sent, delimiter.value))
    ensures delimiter.None? ==> r.Ok? && forall i :: 0 <= i < |r.value| ==> r.value[i] != [] && NoSpace(r.value[i])
    ensures delimiter.Some? && r.Ok? ==>
      && r.value != []
      && Join(r.value, delimiter.value) == sent
      && |r.value| == CountOccurrences(sent, delimiter.value) + 1
  {
    match delimiter
    case None => Ok(SplitWhitespace(sent))
    case Some(d) =>
      if d == [] then Err(EmptySeparator)
      else
        JoinSplitOn(sent, d);
        SplitOnCount(sent, d);
        Ok(SplitOn(sent, d))
  }
}
