/**
 * The older vocabulary at the repository root. It is built from keyword
 * arguments naming the reserved tokens, and checks removals against the
 * names of those arguments.
 */
module LegacyVocab {
  import opened Outcomes
  import opened VocabTables
  import opened SeqFacts

  /** The tokens of the keyword arguments, in keyword order. */
  function Tokens(reserved: seq<(string, string)>): (ts: seq<string>)
    ensures |ts| == |reserved|
    ensures forall i :: 0 <= i < |reserved| ==> ts[i] == reserved[i].1
  {
    seq(|reserved|, i requires 0 <= i < |reserved| => reserved[i].1)
  }

  /** The keyword arguments as the dictionary `**reserved`, name to token. */
  function NamedTokens(reserved: seq<(string, string)>): (m: map<string, string>)
    requires forall i, j :: 0 <= i < j < |reserved| ==> reserved[i].0 != reserved[j].0
    ensures forall name :: name in m <==> exists i :: 0 <= i < |reserved| && reserved[i].0 == name
    ensures forall i :: 0 <= i < |reserved| ==> m[reserved[i].0] == reserved[i].1
  {
    map i | 0 <= i < |reserved| :: reserved[i].0 := reserved[i].1
  }

  /** Every word in `f2i` is still listed. */
  ghost predicate CoherentTables(words: seq<string>, f2i: map<string, int>) {
    forall v :: v in f2i ==> v in words
  }

  /**
   * The list has no repeats, `f2i` holds exactly the listed words, and every
   * id in `i2f` names a word whose id it is. Ids need not be dense, and a
   * word's id need not be in `i2f`.
   */
  ghost predicate ValidTables(words: seq<string>, f2i: map<string, int>, i2f: map<int, string>) {
    && Distinct(words)
    && (forall v :: v in f2i <==> v in words)
    && (forall i :: i in i2f ==> i2f[i] in f2i && f2i[i2f[i]] == i)
  }

  /** Dense tables are coherent, and valid when the list has no repeats. */
  lemma DenseTablesValid(words: seq<string>)
    ensures CoherentTables(words, DenseF2i(words))
    ensures Distinct(words) ==> ValidTables(words, DenseF2i(words), DenseI2f(words))
  {
    DenseTablesLaw(words);
    if Distinct(words) {
      DenseTablesOfDistinct(words);
    }
  }

  /**
   * A successful removal keeps the tables coherent, and valid when they
   * were: the word leaves the list and `f2i`, its id leaves `i2f`.
   */
  lemma RemoveKeepsTables(words: seq<string>, f2i: map<string, int>, i2f: map<int, string>, w: string)
    requires CoherentTables(words, f2i) && w in f2i && f2i[w] in i2f
    ensures CoherentTables(RemoveFirst(words, w), f2i - {w})
    ensures ValidTables(words, f2i, i2f) ==> ValidTables(RemoveFirst(words, w), f2i - {w}, i2f - {f2i[w]})
  {
    var rest := RemoveFirst(words, w);
    forall v | v in f2i - {w} ensures v in rest {
      RemoveFirstKeeps(words, w, v);
    }
    if ValidTables(words, f2i, i2f) {
      RemoveFirstOfDistinct(words, w);
    }
  }

  class Vocabulary {
    var words: seq<string>
    var f2i: map<string, int>
    var i2f: map<int, string>
    var reserved: map<string, string>

    /** Every word in `f2i` is still listed; every method keeps this, whatever it raises. */
    ghost predicate Coherent()
      reads this
    {
      CoherentTables(words, f2i)
    }

    /** The healthy state (`ValidTables`). */
    ghost predicate Valid()
      reads this
    {
      ValidTables(words, f2i, i2f)
    }

    /**
     * `Vocabulary(**reserved)`: stores the keyword dictionary and adds each
     * token in keyword order, so `k` distinct tokens take ids `0 .. k-1` and a
     * token given twice is added once.
     */
    constructor(reservedArgs: seq<(string, string)>)
      requires forall i, j :: 0 <= i < j < |reservedArgs| ==> reservedArgs[i].0 != reservedArgs[j].0
      ensures reserved == NamedTokens(reservedArgs)
      ensures words == Dedup(Tokens(reservedArgs))
      ensures f2i == DenseF2i(words) && i2f == DenseI2f(words)
      ensures Valid() && Coherent()
    {
      words, f2i, i2f := [], map[], map[];
      reserved := NamedTokens(reservedArgs);
      new;
      ghost var all := Tokens(reservedArgs);
      var i := 0;
      while i < |reservedArgs|
        invariant 0 <= i <= |reservedArgs|
        invariant reserved == NamedTokens(reservedArgs)
        invariant words == Dedup(all[..i])
        invariant f2i == DenseF2i(words) && i2f == DenseI2f(words)
      {
        var token := reservedArgs[i].1;
        PrefixSnoc(all, i);
        DedupSnoc(all[..i], token);
        DenseTablesValid(words);
        DenseTablesLaw(words);
        ghost var before := words;
        var _ := Add(token, true);
        DenseSnoc(before, token);
        i := i + 1;
      }
      assert all[..i] == all;
      DenseTablesValid(words);
    }

    /**
     * `add(w, ignore_duplicates)`: a known word gives back its id, or raises
     * ValueError when duplicates are not ignored, and changes nothing; a new
     * word is appended under the id `len(words)`, which after a removal may
     * be an id another word still holds (its `i2f` entry is overwritten).
     */
    method Add(w: string, ignoreDuplicates: bool) returns (r: Result<int>)
      requires Coherent()
      modifies this
      ensures Coherent() && reserved == old(reserved)
      ensures old(Valid()) ==> Valid()
      ensures w in old(f2i) ==> unchanged(this)
      ensures w in old(f2i) ==> r == if ignoreDuplicates then Ok(old(f2i)[w]) else Err(DuplicateToken(w))
      ensures w !in old(f2i) ==> r == Ok(|old(words)|) && words == old(words) + [w]
      ensures w !in old(f2i) ==> f2i == old(f2i)[w := |old(words)|] && i2f == old(i2f)[|old(words)| := w]
    {
      if w in f2i {
        if !ignoreDuplicates {
          return Err(DuplicateToken(w));
        }
        return Ok(f2i[w]);
      }
      var index := |words|;
      words := words + [w];
      f2i := f2i[w := index];
      i2f := i2f[index := w];
      r := Ok(f2i[w]);
    }

    /**
     * `remove(w)`: an unknown word raises ValueError; so does a word that is
     * one of the keyword NAMES (not the reserved tokens). Otherwise `w`'s
     * entry leaves `f2i`; if its id has lost its `i2f` entry to a later
     * `add`, KeyError is raised right there, with `w` still listed; else the
     * id leaves `i2f` and the first `w` leaves the list. No other word's id
     * changes.
     */
    method Remove(w: string) returns (r: Result<()>)
      requires Coherent()
      modifies this
      ensures Coherent() && reserved == old(reserved)
      ensures old(Valid()) && r.Ok? ==> Valid()
      ensures w !in old(f2i) ==> r == Err(UnknownToken(w)) && unchanged(this)
      ensures w in old(f2i) && w in reserved ==> r == Err(ReservedToken(w)) && unchanged(this)
      ensures w in old(f2i) && w !in reserved ==> f2i == old(f2i) - {w}
      ensures w in old(f2i) && w !in reserved && old(f2i)[w] !in old(i2f) ==>
        r == Err(KeyMissing) && i2f == old(i2f) && words == old(words)
      ensures w in old(f2i) && w !in reserved && old(f2i)[w] in old(i2f) ==>
        r == Ok(()) && i2f == old(i2f) - {old(f2i)[w]} && words == RemoveFirst(old(words), w)
    {
      if w !in f2i {
        return Err(UnknownToken(w));
      }
      if w in reserved {
        return Err(ReservedToken(w));
      }
      ghost var wasValid := Valid();
      var index := f2i[w];
      f2i := f2i - {w};
      if index !in i2f {
        return Err(KeyMissing);
      }
      RemoveKeepsTables(words, old(f2i), i2f, w);
      ghost var next := (RemoveFirst(words, w), f2i, i2f - {index});
      assert wasValid ==> ValidTables(next.0, next.1, next.2);
      i2f := i2f - {index};
      words := RemoveFirst(words, w);
      assert (words, f2i, i2f) == next;
      r := Ok(());
    }

    /** `reconstruct_indices()`: rebuilds both tables densely from the word list, in list order. */
    method ReconstructIndices()
      modifies this
      ensures words == old(words) && reserved == old(reserved)
      ensures f2i == DenseF2i(words) && i2f == DenseI2f(words)
      ensures Coherent()
      ensures Distinct(words) ==> Valid()
    {
      f2i, i2f := map[], map[];
      var i := 0;
      while i < |words|
        invariant 0 <= i <= |words| && words == old(words) && reserved == old(reserved)
        invariant f2i == DenseF2i(words[..i]) && i2f == DenseI2f(words[..i])
      {
        assert words[..i + 1][..i] == words[..i];
        f2i := f2i[words[i] := i];
        i2f := i2f[i := words[i]];
        i := i + 1;
      }
      assert words[..i] == words;
      DenseTablesValid(words);
    }

    /**
     * `self[item]`: on a valid vocabulary a word is found exactly when it is
     * listed, and an id that is found names a word whose id it is; an
     * iterable goes element by element (`LookupElementwise`).
     */
    function Get(k: Key): (r: Result<Item>)
      reads this
      ensures Valid() && k.Word? ==> (r.Ok? <==> k.w in words)
      ensures Valid() && k.Index? && r.Ok? ==> r.value.Token? && Lookup(f2i, i2f, Word(r.value.token)) == Ok(Id(k.i))
    {
      Lookup(f2i, i2f, k)
    }

    /** `item in vocab`: a listed word, or an id present in `i2f`; a list raises TypeError. */
    function Contains(k: Key): (r: Result<bool>)
      reads this
      ensures Valid() && k.Word? ==> r == Ok(k.w in words)
      ensures k.Index? ==> r == Ok(k.i in i2f)
      ensures k.Keys? ==> r == Err(Unhashable)
    {
      VocabTables.Contains(f2i, i2f, k)
    }

    /** `len(vocab)`, the size of `f2i`, which on a valid vocabulary is the number of listed words. */
    function Len(): (n: nat)
      reads this
      ensures Valid() ==> n == |words|
    {
      KeysCount(f2i, words);
      |f2i|
    }
  }

  /** `words.remove(b)` on `[a, b, c]`. */
  lemma RemoveMiddle(a: string, b: string, c: string)
    requires a != b
    ensures RemoveFirst([a, b, c], b) == [a, c]
  {
    assert [a, b, c][1..] == [b, c] && [b, c][1..] == [c];
  }

  /** Four different words. */
  predicate AllDifferent(a: string, b: string, c: string, d: string) {
    a != b && a != c && a != d && b != c && b != d && c != d
  }

  /** A vocabulary holding three different words `a, b, c` under ids 0, 1, 2, built by three `add` calls. */
  method ThreeWords(a: string, b: string, c: string) returns (v: Vocabulary)
    requires a != b && a != c && b != c
    ensures fresh(v) && v.Valid() && v.reserved == map[]
    ensures v.words == [a, b, c]
    ensures v.f2i == map[a := 0, b := 1, c := 2] && v.i2f == map[0 := a, 1 := b, 2 := c]
  {
    v := new Vocabulary([]);
    assert Tokens([]) == [];
    var ra := v.Add(a, true);
    var rb := v.Add(b, true);
    var rc := v.Add(c, true);
  }

  /**
   * After a removal, `add` hands out `len(words)` again: with the words
   * `a, b, c`, removing `b` and adding `d` gives `d` the id 2 that `c` still
   * holds, and `i2f[2]` now names `d`. The vocabulary is still `Valid`.
   */
  method IdReuse(a: string, b: string, c: string, d: string) returns (v: Vocabulary, added: Result<int>)
    requires AllDifferent(a, b, c, d)
    ensures added == Ok(2)
    ensures v.words == [a, c, d]
    ensures c in v.f2i && d in v.f2i && v.f2i[c] == 2 && v.f2i[d] == 2
    ensures 2 in v.i2f && v.i2f[2] == d
    ensures v.Valid() && v.reserved == map[] && fresh(v)
  {
    v := ThreeWords(a, b, c);
    RemoveMiddle(a, b, c);
    var removed := v.Remove(b);
    added := v.Add(d, true);
    assert v.words == [a, c] + [d];
  }

  /**
   * Continuing from `IdReuse`: removing `c` deletes `i2f[2]`, the entry that
   * named `d`; removing `d` then deletes `d` from `f2i` and raises KeyError
   * at `i2f`, leaving `d` listed but without an id, so the vocabulary is no
   * longer `Valid`.
   */
  method StaleKeyError(a: string, b: string, c: string, d: string) returns (v: Vocabulary, first: Result<()>, second: Result<()>)
    requires AllDifferent(a, b, c, d)
    ensures first == Ok(()) && second == Err(KeyMissing)
    ensures v.words == [a, d] && d !in v.f2i
    ensures !v.Valid()
  {
    var added;
    v, added := IdReuse(a, b, c, d);
    first := v.Remove(c);
    assert v.words == [a, d] by {
      assert [a, c, d][1..] == [c, d] && [c, d][1..] == [d];
    }
    second := v.Remove(d);
  }

  /**
   * The reserved check compares against the keyword names: with
   * `Vocabulary(pad="<PAD>", unk="unk")` the padding token `<PAD>` can be
   * removed, while `unk` cannot, because it happens to equal its name.
   */
  method ReservedByName() returns (v: Vocabulary, byToken: Result<()>, byName: Result<()>)
    ensures byToken == Ok(())
    ensures byName == Err(ReservedToken("unk"))
    ensures v.words == ["unk"]
  {
    PadAndUnk();
    v := new Vocabulary([("pad", "<PAD>"), ("unk", "unk")]);
    byToken := v.Remove("<PAD>");
    assert ["<PAD>", "unk"][1..] == ["unk"];
    byName := v.Remove("unk");
  }

  /** The tables `Vocabulary(pad="<PAD>", unk="unk")` starts from. */
  lemma PadAndUnk()
    ensures var args := [("pad", "<PAD>"), ("unk", "unk")];
      && Dedup(Tokens(args)) == ["<PAD>", "unk"]
      && "unk" in NamedTokens(args) && "<PAD>" !in NamedTokens(args)
      && DenseF2i(["<PAD>", "unk"]) == map["<PAD>" := 0, "unk" := 1]
      && DenseI2f(["<PAD>", "unk"]) == map[0 := "<PAD>", 1 := "unk"]
  {
    assert "<PAD>" != "unk" && "<PAD>" != "pad" && "pad" != "unk";
    TwoReserved("pad", "<PAD>", "unk", "unk");
  }

  /** The tables a vocabulary built from two keyword arguments with different names and tokens starts from. */
  lemma TwoReserved(n1: string, t1: string, n2: string, t2: string)
    requires n1 != n2 && t1 != t2
    ensures Dedup(Tokens([(n1, t1), (n2, t2)])) == [t1, t2]
    ensures NamedTokens([(n1, t1), (n2, t2)]) == map[n1 := t1, n2 := t2]
    ensures DenseF2i([t1, t2]) == map[t1 := 0, t2 := 1]
    ensures DenseI2f([t1, t2]) == map[0 := t1, 1 := t2]
  {
    assert Tokens([(n1, t1), (n2, t2)]) == [t1, t2];
    assert Distinct([t1, t2]);
    DedupOfDistinct([t1, t2]);
    TwoNamedTokens(n1, t1, n2, t2);
    TwoDense(t1, t2);
  }

  /** The dense tables of a two-word list. */
  lemma TwoDense(t1: string, t2: string)
    ensures DenseF2i([t1, t2]) == map[t1 := 0, t2 := 1]
    ensures DenseI2f([t1, t2]) == map[0 := t1, 1 := t2]
  {
    DenseSnoc([], t1);
    assert [] + [t1] == [t1];
    DenseSnoc([t1], t2);
    assert [t1] + [t2] == [t1, t2];
  }

  /** Two keyword arguments with different names make a two-entry dictionary. */
  lemma TwoNamedTokens(n1: string, t1: string, n2: string, t2: string)
    requires n1 != n2
    ensures NamedTokens([(n1, t1), (n2, t2)]) == map[n1 := t1, n2 := t2]
  {
    var m := NamedTokens([(n1, t1), (n2, t2)]);
    assert [(n1, t1), (n2, t2)][0].0 == n1 && [(n1, t1), (n2, t2)][1].0 == n2;
    assert m.Keys == {n1, n2};
  }
}
