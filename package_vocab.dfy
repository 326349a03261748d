/**
 * The vocabulary of the package: a word list and the two lookup tables,
 * updated in place by `add`, `remove` and `reconstruct_indices`.
 */
module PackageVocab {
  import opened Outcomes
  import opened VocabTables

  class Vocabulary {
    var words: seq<string>
    var f2i: map<string, int>
    var i2f: map<int, string>

    /**
     * The tables are the dense tables of a word list without repeats, so the
     * ids are exactly `0 .. n-1` and `words[i] ↦ i`. Since `remove` never
     * gets past its reserved-word check, nothing breaks this.
     */
    ghost predicate Valid()
      reads this
    {
      Distinct(words) && f2i == DenseF2i(words) && i2f == DenseI2f(words)
    }

    /** `Vocabulary()`: empty list and tables. */
    constructor()
      ensures Valid() && words == []
    {
      words, f2i, i2f := [], map[], map[];
    }

    /**
     * `add(w, ignore_duplicates)`: a known word gives back its id, or raises
     * ValueError when duplicates are not ignored, and changes nothing; a new
     * word is appended and takes the id `len(words)` it had before.
     */
    method Add(w: string, ignoreDuplicates: bool) returns (r: Result<int>)
      requires Valid()
      modifies this
      ensures Valid()
      ensures w in old(f2i) ==> unchanged(this)
      ensures w in old(f2i) ==> r == if ignoreDuplicates then Ok(old(f2i)[w]) else Err(DuplicateToken(w))
      ensures w !in old(f2i) ==> r == Ok(|old(words)|) && words == old(words) + [w]
      ensures w !in old(f2i) ==> f2i == old(f2i)[w := |old(words)|] && i2f == old(i2f)[|old(words)| := w]
    {
      if w in f2i {
        if !ignoreDuplicates {
          return Err(DuplicateToken(w));
        }
        return Ok(f2i[w]);
      }
      DenseTablesLaw(words);
      var index := |words|;
      assert (words + [w])[..index] == words;
      words := words + [w];
      f2i := f2i[w := index];
      i2f := i2f[index := w];
      r := Ok(f2i[w]);
    }

    /**
     * `remove(w)`: an unknown word raises ValueError; a known one reaches the
     * reserved-word check, which reads an attribute this class never sets and
     * raises AttributeError. Either way nothing has changed.
     */
    method Remove(w: string) returns (r: Result<()>)
      ensures r.Err?
      ensures w !in f2i ==> r.error == UnknownToken(w)
      ensures w in f2i ==> r.error == MissingAttribute("reserved")
    {
      if w !in f2i {
        return Err(UnknownToken(w));
      }
      return Err(MissingAttribute("reserved"));
    }

    /**
     * `reconstruct_indices()`: rebuilds both tables from the word list, in
     * list order; on a valid vocabulary this gives back the same tables.
     */
    method ReconstructIndices()
      modifies this
      ensures words == old(words)
      ensures f2i == DenseF2i(words) && i2f == DenseI2f(words)
      ensures old(Valid()) ==> Valid() && f2i == old(f2i) && i2f == old(i2f)
    {
      f2i, i2f := map[], map[];
      var i := 0;
      while i < |words|
        invariant 0 <= i <= |words| && words == old(words)
        invariant f2i == DenseF2i(words[..i]) && i2f == DenseI2f(words[..i])
      {
        assert words[..i + 1][..i] == words[..i];
        f2i := f2i[words[i] := i];
        i2f := i2f[i := words[i]];
        i := i + 1;
      }
      assert words[..i] == words;
    }

    /**
     * `self[item]`: on a valid vocabulary an id is found exactly when it is
     * below `len(words)` and names `words[i]`, and a word is found exactly
     * when it is listed, at the position its id gives; an iterable goes
     * element by element (`LookupElementwise`).
     */
    function Get(k: Key): (r: Result<Item>)
      reads this
      ensures Valid() && k.Index? ==> (r.Ok? <==> 0 <= k.i < |words|) && (r.Ok? ==> r.value == Token(words[k.i]))
      ensures Valid() && k.Word? ==> (r.Ok? <==> k.w in words)
      ensures Valid() && k.Word? && r.Ok? ==> r.value.Id? && 0 <= r.value.id < |words| && words[r.value.id] == k.w
    {
      DenseTablesLaw(words);
      Lookup(f2i, i2f, k)
    }

    /** `item in vocab`: a listed word or an id below `len(words)`; a list raises TypeError. */
    function Contains(k: Key): (r: Result<bool>)
      reads this
      ensures Valid() && k.Word? ==> r == Ok(k.w in words)
      ensures Valid() && k.Index? ==> r == Ok(0 <= k.i < |words|)
      ensures k.Keys? ==> r == Err(Unhashable)
    {
      DenseTablesLaw(words);
      VocabTables.Contains(f2i, i2f, k)
    }

    /** `len(vocab)`, the size of `f2i`, which on a valid vocabulary is the number of words. */
    function Len(): (n: nat)
      reads this
      ensures Valid() ==> n == |words|
    {
      DenseF2iSize(words);
      |f2i|
    }
  }

  /**
   * With no removals the ids are exactly `0 .. n-1`: every word is found
   * under its position and every position names its word.
   */
  lemma DenseIds(v: Vocabulary)
    requires v.Valid()
    ensures forall i :: 0 <= i < |v.words| ==> v.Get(Word(v.words[i])) == Ok(Id(i))
    ensures forall i :: 0 <= i < |v.words| ==> v.Get(Index(i)) == Ok(Token(v.words[i]))
  {
    DenseTablesOfDistinct(v.words);
  }
}
