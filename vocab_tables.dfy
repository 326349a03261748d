/**
 * The tables both vocabulary classes keep, as values: the word list, the
 * word-to-id map `f2i` and the id-to-word map `i2f`, together with the
 * dense tables `reconstruct_indices` builds and the lookups behind
 * `__getitem__` and `__contains__`.
 */
module VocabTables {
  import opened Outcomes
  import opened SeqFacts

  predicate Distinct<T(==)>(s: seq<T>) {
    forall i, j :: 0 <= i < j < |s| ==> s[i] != s[j]
  }

  /** The word-to-id table after `f2i[w] = i` for every `(i, w)` of `enumerate(words)`, in order. */
  function DenseF2i(words: seq<string>): map<string, int>
    decreases |words|
  {
    if words == [] then map[]
    else DenseF2i(words[..|words| - 1])[words[|words| - 1] := |words| - 1]
  }

  /** The id-to-word table after `i2f[i] = w` for every `(i, w)` of `enumerate(words)`, in order. */
  function DenseI2f(words: seq<string>): map<int, string>
    decreases |words|
  {
    if words == [] then map[]
    else DenseI2f(words[..|words| - 1])[|words| - 1 := words[|words| - 1]]
  }

  /**
   * The dense tables hold exactly the listed words and exactly the ids
   * `0 .. n-1`; id `i` names `words[i]`, and each word's id is a position
   * where it is listed (its last one, should it be listed twice).
   */
  lemma {:induction false} DenseTablesLaw(words: seq<string>)
    ensures forall w :: w in DenseF2i(words) <==> w in words
    ensures forall w :: w in DenseF2i(words) ==> 0 <= DenseF2i(words)[w] < |words| && words[DenseF2i(words)[w]] == w
    ensures forall i :: i in DenseI2f(words) <==> 0 <= i < |words|
    ensures forall i :: 0 <= i < |words| ==> DenseI2f(words)[i] == words[i]
    decreases |words|
  {
    if words != [] {
      var init := words[..|words| - 1];
      DenseTablesLaw(init);
      assert words == init + [words[|words| - 1]];
    }
  }

  /** With no word listed twice, `words[i] ↦ i` for every position, so the two tables are inverse. */
  lemma DenseTablesOfDistinct(words: seq<string>)
    requires Distinct(words)
    ensures forall i :: 0 <= i < |words| ==> words[i] in DenseF2i(words) && DenseF2i(words)[words[i]] == i
    ensures forall w :: w in DenseF2i(words) ==> DenseF2i(words)[w] in DenseI2f(words) && DenseI2f(words)[DenseF2i(words)[w]] == w
    ensures forall i :: i in DenseI2f(words) ==> DenseI2f(words)[i] in DenseF2i(words) && DenseF2i(words)[DenseI2f(words)[i]] == i
  {
    DenseTablesLaw(words);
    forall i | 0 <= i < |words| ensures words[i] in DenseF2i(words) && DenseF2i(words)[words[i]] == i {
      assert words[i] in DenseF2i(words);
    }
  }

  /** The distinct words of a list, each at its first occurrence. */
  function Dedup(tokens: seq<string>): (r: seq<string>)
    ensures Distinct(r)
    ensures forall t :: t in r <==> t in tokens
    decreases |tokens|
  {
    if tokens == [] then []
    else
      var prev := Dedup(tokens[..|tokens| - 1]);
      var t := tokens[|tokens| - 1];
      assert forall x :: x in tokens <==> x in tokens[..|tokens| - 1] || x == t;
      if t in prev then prev else prev + [t]
  }

  /** Deduplicating one more word appends it exactly when it is new. */
  lemma DedupSnoc(tokens: seq<string>, t: string)
    ensures Dedup(tokens + [t]) == if t in tokens then Dedup(tokens) else Dedup(tokens) + [t]
  {
    assert (tokens + [t])[..|tokens|] == tokens;
  }

  /** Listing one more word adds its position to both dense tables. */
  lemma DenseSnoc(words: seq<string>, w: string)
    ensures DenseF2i(words + [w]) == DenseF2i(words)[w := |words|]
    ensures DenseI2f(words + [w]) == DenseI2f(words)[|words| := w]
  {
    assert (words + [w])[..|words|] == words;
  }

  /** A list without repeats is its own deduplication. */
  lemma {:induction false} DedupOfDistinct(tokens: seq<string>)
    requires Distinct(tokens)
    ensures Dedup(tokens) == tokens
    decreases |tokens|
  {
    if tokens != [] {
      var init := tokens[..|tokens| - 1];
      DedupOfDistinct(init);
      assert tokens == init + [tokens[|tokens| - 1]];
    }
  }

  /** A table keyed by exactly the words of a list without repeats has one entry per word. */
  lemma {:induction false} KeysCount<V>(m: map<string, V>, words: seq<string>)
    ensures Distinct(words) && (forall v :: v in m <==> v in words) ==> |m| == |words|
    decreases |words|
  {
    if !Distinct(words) || !(forall v :: v in m <==> v in words) {
    } else if words == [] {
      assert m == map[];
    } else {
      var init := words[..|words| - 1];
      var last := words[|words| - 1];
      assert words == init + [last];
      var rest := m - {last};
      KeysCount(rest, init);
      assert m.Keys == rest.Keys + {last};
    }
  }

  /** The dense word table of a list without repeats has one entry per word. */
  lemma DenseF2iSize(words: seq<string>)
    ensures Distinct(words) ==> |DenseF2i(words)| == |words|
  {
    if Distinct(words) {
      DenseTablesLaw(words);
      KeysCount(DenseF2i(words), words);
    }
  }

  /** The position of the first occurrence of `w`. */
  function FirstIndex(words: seq<string>, w: string): (k: nat)
    requires w in words
    ensures k < |words| && words[k] == w && w !in words[..k]
  {
    if words[0] == w then 0
    else
      var k := FirstIndex(words[1..], w) + 1;
      assert words[..k] == [words[0]] + words[1..][..k - 1];
      k
  }

  /**
   * `words.remove(w)`: the list without the first occurrence of `w`, the
   * other words keeping their order; an absent word leaves the list as it is
   * (the source raises before reaching the call in that case).
   */
  function RemoveFirst(words: seq<string>, w: string): (r: seq<string>)
    ensures w in words ==> r == words[..FirstIndex(words, w)] + words[FirstIndex(words, w) + 1..]
    ensures w in words ==> |r| == |words| - 1
    ensures w !in words ==> r == words
    ensures multiset(r) == multiset(words) - multiset{w}
  {
    if w in words then
      var k := FirstIndex(words, w);
      assert words == words[..k] + [w] + words[k + 1..];
      words[..k] + words[k + 1..]
    else
      assert multiset(words)[w] == 0;
      words
  }

  /** Removing one word keeps every other word of the list. */
  lemma RemoveFirstKeeps(words: seq<string>, w: string, v: string)
    requires v in words && v != w
    ensures v in RemoveFirst(words, w)
  {
    assert multiset(words)[v] > 0;
    assert multiset(RemoveFirst(words, w))[v] > 0;
  }

  /** Removing a word from a list without repeats drops exactly that word. */
  lemma RemoveFirstOfDistinct(words: seq<string>, w: string)
    requires Distinct(words)
    ensures Distinct(RemoveFirst(words, w))
    ensures forall v :: v in RemoveFirst(words, w) <==> v in words && v != w
  {
    var r := RemoveFirst(words, w);
    assert forall v :: v in r <==> multiset(r)[v] > 0;
    assert forall v :: v in words <==> multiset(words)[v] > 0;
    DistinctCounts(words);
    forall i, j | 0 <= i < j < |r| ensures r[i] != r[j] {
      if r[i] == r[j] {
        TwiceCounted(r, i, j);
      }
    }
  }

  /** In a list without repeats every element is counted once. */
  lemma {:induction false} DistinctCounts(words: seq<string>)
    requires Distinct(words)
    ensures forall v :: multiset(words)[v] <= 1
    decreases |words|
  {
    if words != [] {
      var init := words[..|words| - 1];
      DistinctCounts(init);
      assert words == init + [words[|words| - 1]];
    }
  }

  /** An element at two positions is counted at least twice. */
  lemma TwiceCounted(s: seq<string>, i: nat, j: nat)
    requires i < j < |s| && s[i] == s[j]
    ensures multiset(s)[s[i]] >= 2
  {
    assert s == s[..j] + [s[j]] + s[j + 1..];
    assert s[i] in s[..j];
  }

  // ---------------------------------------------------------------------------
  // __getitem__ and __contains__
  // ---------------------------------------------------------------------------

  /**
   * What can be looked up: an int id, a str word, or a Python list of keys.
   * A list is iterable, so `__getitem__` looks its elements up one by one,
   * and unhashable, so `in` on a dict raises TypeError for it.
   */
  datatype Key = Index(i: int) | Word(w: string) | Keys(keys: seq<Key>)

  /** What a lookup returns: a word for an id, an id for a word, a list for an iterable. */
  datatype Item = Token(token: string) | Id(id: int) | Items(items: seq<Item>)

  /** The list of looked-up values, or the error of the first key that failed. */
  function Collect(rs: seq<Result<Item>>): (r: Result<seq<Item>>)
    ensures r.Ok? <==> forall i :: 0 <= i < |rs| ==> rs[i].Ok?
    ensures r.Ok? ==> |r.value| == |rs| && forall i :: 0 <= i < |rs| ==> rs[i] == Ok(r.value[i])
    ensures r.Err? ==> exists i :: 0 <= i < |rs| && rs[i] == Err(r.error) && forall j :: 0 <= j < i ==> rs[j].Ok?
    decreases |rs|
  {
    if rs == [] then Ok([])
    else if rs[0].Err? then Err(rs[0].error)
    else
      var rest := Collect(rs[1..]);
      if rest.Err? then
        ghost var i :| 0 <= i < |rs[1..]| && rs[1..][i] == Err(rest.error) && forall j :: 0 <= j < i ==> rs[1..][j].Ok?;
        assert rs[i + 1] == Err(rest.error) && forall j :: 0 <= j < i + 1 ==> rs[j].Ok?;
        Err(rest.error)
      else Ok([rs[0].value] + rest.value)
  }

  /**
   * `Vocabulary.__getitem__`: an id reads `i2f`, a word reads `f2i`, an
   * iterable is looked up element by element, and a missing key raises
   * KeyError.
   */
  function Lookup(f2i: map<string, int>, i2f: map<int, string>, k: Key): (r: Result<Item>)
    ensures k.Index? ==> (r.Ok? <==> k.i in i2f) && (r.Ok? ==> r.value == Token(i2f[k.i]))
    ensures k.Word? ==> (r.Ok? <==> k.w in f2i) && (r.Ok? ==> r.value == Id(f2i[k.w]))
    ensures r.Err? && !k.Keys? ==> r.error == KeyMissing
    decreases k
  {
    match k
    case Index(i) => if i in i2f then Ok(Token(i2f[i])) else Err(KeyMissing)
    case Word(w) => if w in f2i then Ok(Id(f2i[w])) else Err(KeyMissing)
    case Keys(ks) =>
      var rs := seq(|ks|, i requires 0 <= i < |ks| => Lookup(f2i, i2f, ks[i]));
      match Collect(rs)
      case Ok(items) => Ok(Items(items))
      case Err(e) => Err(e)
  }

  /** Every key before position `i` is found. */
  predicate FirstFailure(f2i: map<string, int>, i2f: map<int, string>, ks: seq<Key>, i: nat)
    requires i <= |ks|
  {
    forall j :: 0 <= j < i ==> Lookup(f2i, i2f, ks[j]).Ok?
  }

  /**
   * An iterable key succeeds exactly when each of its elements does, giving
   * their values in order; otherwise it raises what its first failing element
   * raises.
   */
  lemma LookupElementwise(f2i: map<string, int>, i2f: map<int, string>, ks: seq<Key>)
    ensures var r := Lookup(f2i, i2f, Keys(ks));
      && (r.Ok? <==> forall i :: 0 <= i < |ks| ==> Lookup(f2i, i2f, ks[i]).Ok?)
      && (r.Ok? ==> r.value.Items? && |r.value.items| == |ks|)
      && (r.Ok? ==> forall i :: 0 <= i < |ks| ==> Lookup(f2i, i2f, ks[i]) == Ok(r.value.items[i]))
      && (r.Err? ==> exists i :: 0 <= i < |ks| && Lookup(f2i, i2f, ks[i]) == Err(r.error) && FirstFailure(f2i, i2f, ks, i))
  {
    var rs := seq(|ks|, i requires 0 <= i < |ks| => Lookup(f2i, i2f, ks[i]));
    assert forall i :: 0 <= i < |ks| ==> rs[i] == Lookup(f2i, i2f, ks[i]);
  }

  /** `Vocabulary.__contains__`: whether the key is a word of `f2i` or an id of `i2f`; a list is unhashable. */
  function Contains(f2i: map<string, int>, i2f: map<int, string>, k: Key): (r: Result<bool>)
    ensures r.Ok? <==> !k.Keys?
    ensures r.Ok? ==> (r.value <==> Lookup(f2i, i2f, k).Ok?)
    ensures r.Err? ==> r.error == Unhashable
  {
    match k
    case Index(i) => Ok(i in i2f)
    case Word(w) => Ok(w in f2i)
    case Keys(_) => Err(Unhashable)
  }
}
