/**
 * `collections.Counter` over a list of words and its `most_common(k)`.
 * A Counter keeps its keys in first-insertion order; `most_common(k)` is the first `k`
 * entries of a stable sort by descending count, so equal counts keep that order.
 */
module Counter {

  /** One `(term, count)` pair as `most_common` returns it. */
  datatype KeywordEntry = KeywordEntry(term: string, count: nat)

  function Terms(es: seq<KeywordEntry>): (ts: seq<string>)
    ensures |ts| == |es| && forall i :: 0 <= i < |es| ==> ts[i] == es[i].term
  {
    seq(|es|, i requires 0 <= i < |es| => es[i].term)
  }

  predicate DistinctTerms(es: seq<KeywordEntry>) {
    forall i, j :: 0 <= i < j < |es| ==> es[i].term != es[j].term
  }

  /** Position of the first occurrence of `w` in `words`. */
  function FirstIndex(words: seq<string>, w: string): (k: nat)
    requires w in words
    ensures k < |words| && words[k] == w
    ensures forall j :: 0 <= j < k ==> words[j] != w
  {
    if words[0] == w then 0 else 1 + FirstIndex(words[1..], w)
  }

  /**
   * Counting one more occurrence of `w`: the entry of `w` gets one more in its place,
   * or, for a word not seen before, a new entry with count 1 goes at the end.
   */
  function Bump(es: seq<KeywordEntry>, w: string): (r: seq<KeywordEntry>)
    ensures w !in Terms(es) ==> r == es + [KeywordEntry(w, 1)]
    ensures w in Terms(es) ==> Terms(r) == Terms(es)
  {
    if w in Terms(es) then
      var k := FirstIndex(Terms(es), w);
      var r := es[k := KeywordEntry(w, es[k].count + 1)];
      assert forall i :: 0 <= i < |es| ==> Terms(r)[i] == Terms(es)[i];
      r
    else es + [KeywordEntry(w, 1)]
  }

  /** With distinct terms, bumping an existing word adds one to its count and to no other. */
  lemma BumpCounts(es: seq<KeywordEntry>, w: string)
    requires DistinctTerms(es) && w in Terms(es)
    ensures |Bump(es, w)| == |es|
    ensures forall i :: 0 <= i < |es| ==>
      Bump(es, w)[i].count == es[i].count + (if es[i].term == w then 1 else 0)
  {
    var k := FirstIndex(Terms(es), w);
    forall i | 0 <= i < |es| && i != k ensures es[i].term != w {
      assert es[k].term == Terms(es)[k] == w;
    }
  }

  /** `Counter(words)`: the words are counted in order, left to right. */
  function Tally(words: seq<string>): seq<KeywordEntry>
  {
    if words == [] then [] else Bump(Tally(words[..|words| - 1]), words[|words| - 1])
  }

  /** The entries' terms are exactly the words counted. */
  ghost predicate SameWords(es: seq<KeywordEntry>, words: seq<string>) {
    forall w :: w in words <==> w in Terms(es)
  }

  /** Each entry's count is the number of occurrences of its term. */
  ghost predicate CountsMatch(es: seq<KeywordEntry>, words: seq<string>) {
    forall i :: 0 <= i < |es| ==> es[i].count == multiset(words)[es[i].term]
  }

  /** The entries are in the order of their terms' first occurrences. */
  ghost predicate FirstSeenOrder(es: seq<KeywordEntry>, words: seq<string>) {
    && (forall i :: 0 <= i < |es| ==> es[i].term in words)
    && (forall i, j :: 0 <= i < j < |es| ==> FirstIndex(words, es[i].term) < FirstIndex(words, es[j].term))
  }

  /** What a Counter holds after counting `words`. */
  ghost predicate IsTallyOf(es: seq<KeywordEntry>, words: seq<string>) {
    DistinctTerms(es) && SameWords(es, words) && CountsMatch(es, words) && FirstSeenOrder(es, words)
  }

  /** A word's first occurrence does not move when more words are appended. */
  lemma {:induction false} FirstIndexPrefix(words: seq<string>, more: seq<string>, w: string)
    requires w in words
    ensures w in words + more && FirstIndex(words + more, w) == FirstIndex(words, w)
  {
    if words[0] != w {
      assert (words + more)[1..] == words[1..] + more;
      FirstIndexPrefix(words[1..], more, w);
    }
  }

  /**
   * The Counter of `words` has one entry per distinct word, each with its number of
   * occurrences, in the order of first occurrence.
   */
  lemma {:induction false} TallyCorrect(words: seq<string>)
    ensures IsTallyOf(Tally(words), words)
  {
    if words != [] {
      var n := |words|;
      var p, w := words[..n - 1], words[n - 1];
      assert words == p + [w];
      TallyCorrect(p);
      if w in Terms(Tally(p)) {
        BumpExisting(Tally(p), p, w);
      } else {
        BumpNew(Tally(p), p, w);
      }
    }
  }

  /** Counting a word seen before increments its entry and keeps the order. */
  lemma BumpExisting(es: seq<KeywordEntry>, p: seq<string>, w: string)
    requires IsTallyOf(es, p) && w in Terms(es)
    ensures IsTallyOf(Bump(es, w), p + [w])
  {
    var r := Bump(es, w);
    assert w in p;
    TermsAgree(es, r);
    ExistingWords(es, r, p, w);
    ExistingCounts(es, p, w);
    ExistingOrder(es, r, p, w);
  }

  /** Entries with the same terms, position by position. */
  lemma TermsAgree(es: seq<KeywordEntry>, r: seq<KeywordEntry>)
    requires Terms(r) == Terms(es)
    ensures |r| == |es| && forall i :: 0 <= i < |r| ==> r[i].term == es[i].term
    ensures DistinctTerms(es) ==> DistinctTerms(r)
  {
    forall i | 0 <= i < |r| ensures r[i].term == es[i].term {
      assert Terms(r)[i] == Terms(es)[i];
    }
  }

  lemma ExistingWords(es: seq<KeywordEntry>, r: seq<KeywordEntry>, p: seq<string>, w: string)
    requires SameWords(es, p) && Terms(r) == Terms(es) && w in p
    ensures SameWords(r, p + [w])
  {
    forall x ensures x in p + [w] <==> x in Terms(r) {
      assert x in p + [w] <==> x in p;
    }
  }

  lemma ExistingCounts(es: seq<KeywordEntry>, p: seq<string>, w: string)
    requires CountsMatch(es, p) && DistinctTerms(es) && w in Terms(es)
    ensures CountsMatch(Bump(es, w), p + [w])
  {
    var r := Bump(es, w);
    BumpCounts(es, w);
    TermsAgree(es, r);
    assert multiset(p + [w]) == multiset(p) + multiset{w};
  }

  lemma ExistingOrder(es: seq<KeywordEntry>, r: seq<KeywordEntry>, p: seq<string>, w: string)
    requires FirstSeenOrder(es, p) && Terms(r) == Terms(es) && w in p
    ensures FirstSeenOrder(r, p + [w])
  {
    TermsAgree(es, r);
    var words := p + [w];
    forall i | 0 <= i < |r| ensures r[i].term in words && FirstIndex(words, r[i].term) == FirstIndex(p, es[i].term) {
      FirstIndexPrefix(p, [w], es[i].term);
    }
  }

  /** Counting a new word appends it with count 1, after every word seen before. */
  lemma BumpNew(es: seq<KeywordEntry>, p: seq<string>, w: string)
    requires IsTallyOf(es, p) && w !in Terms(es)
    ensures IsTallyOf(Bump(es, w), p + [w])
  {
    assert w !in p;
    NewEntryDistinct(es, w);
    NewEntryWords(es, p, w);
    NewEntryCounts(es, p, w);
    NewEntryOrder(es, p, w);
  }

  lemma NewEntryDistinct(es: seq<KeywordEntry>, w: string)
    requires DistinctTerms(es) && w !in Terms(es)
    ensures DistinctTerms(es + [KeywordEntry(w, 1)])
  {
    var r := es + [KeywordEntry(w, 1)];
    forall i, j | 0 <= i < j < |r| ensures r[i].term != r[j].term {
      if j == |es| {
        assert Terms(es)[i] == r[i].term;
      }
    }
  }

  lemma NewEntryWords(es: seq<KeywordEntry>, p: seq<string>, w: string)
    requires SameWords(es, p)
    ensures SameWords(es + [KeywordEntry(w, 1)], p + [w])
  {
    var r := es + [KeywordEntry(w, 1)];
    assert Terms(r) == Terms(es) + [w] by {
      assert forall i :: 0 <= i < |es| ==> Terms(r)[i] == Terms(es)[i];
    }
  }

  lemma NewEntryCounts(es: seq<KeywordEntry>, p: seq<string>, w: string)
    requires CountsMatch(es, p) && w !in Terms(es) && w !in p
    ensures CountsMatch(es + [KeywordEntry(w, 1)], p + [w])
  {
    var r := es + [KeywordEntry(w, 1)];
    assert multiset(p + [w]) == multiset(p) + multiset{w};
    assert multiset(p)[w] == 0;
    forall i | 0 <= i < |es| ensures r[i].term != w {
      assert Terms(es)[i] == r[i].term;
    }
  }

  lemma NewEntryOrder(es: seq<KeywordEntry>, p: seq<string>, w: string)
    requires FirstSeenOrder(es, p) && SameWords(es, p) && w !in p
    ensures FirstSeenOrder(es + [KeywordEntry(w, 1)], p + [w])
  {
    var r := es + [KeywordEntry(w, 1)];
    var words := p + [w];
    assert FirstIndex(words, w) == |p| by {
      assert words[|p|] == w;
      assert forall j :: 0 <= j < |p| ==> words[j] == p[j];
    }
    forall i | 0 <= i < |es| ensures r[i].term in words && FirstIndex(words, r[i].term) == FirstIndex(p, es[i].term) < |p| {
      assert r[i] == es[i];
      FirstIndexPrefix(p, [w], es[i].term);
    }
    assert r[|es|].term == w;
  }

  /** Index of the first entry with the largest count. */
  function ArgMax(es: seq<KeywordEntry>): (i: nat)
    requires |es| > 0
    ensures i < |es|
    ensures forall j :: 0 <= j < |es| ==> es[j].count <= es[i].count
    ensures forall j :: 0 <= j < i ==> es[j].count < es[i].count
  {
    if |es| == 1 then 0
    else
      var j := 1 + ArgMax(es[1..]);
      if es[j].count > es[0].count then j else 0
  }

  function RemoveAt(es: seq<KeywordEntry>, i: nat): (r: seq<KeywordEntry>)
    requires i < |es|
    ensures |r| == |es| - 1
  {
    es[..i] + es[i + 1..]
  }

  function Min(a: int, b: int): int { if a < b then a else b }

  /**
   * `most_common(k)`: repeatedly take the first entry with the largest count.
   * This is the stable descending sort by count, cut after `k` entries.
   */
  function MostCommon(es: seq<KeywordEntry>, k: nat): (r: seq<KeywordEntry>)
    ensures |r| == Min(k, |es|)
    decreases k
  {
    if k == 0 || es == [] then []
    else
      var i := ArgMax(es);
      [es[i]] + MostCommon(RemoveAt(es, i), k - 1)
  }

  /** `e` comes before `f` in a stable descending sort by count, ties broken by `rank`. */
  predicate Outranks(e: KeywordEntry, f: KeywordEntry, rank: KeywordEntry -> int) {
    e.count > f.count || (e.count == f.count && rank(e) < rank(f))
  }

  /** The entries of `es` have strictly increasing ranks. */
  predicate RankedInOrder(es: seq<KeywordEntry>, rank: KeywordEntry -> int) {
    forall i, j :: 0 <= i < j < |es| ==> rank(es[i]) < rank(es[j])
  }

  lemma RemoveAtMembers(es: seq<KeywordEntry>, i: nat, x: KeywordEntry)
    requires i < |es| && x in RemoveAt(es, i)
    ensures exists j :: 0 <= j < |es| && j != i && es[j] == x
  {
    var r := RemoveAt(es, i);
    var m :| 0 <= m < |r| && r[m] == x;
    if m < i {
      assert es[m] == x;
    } else {
      assert es[m + 1] == x;
    }
  }

  lemma RemoveAtKeeps(es: seq<KeywordEntry>, i: nat, x: KeywordEntry)
    requires i < |es| && x in es && x != es[i]
    ensures x in RemoveAt(es, i)
  {
    var j :| 0 <= j < |es| && es[j] == x;
    if j < i {
      assert RemoveAt(es, i)[j] == x;
    } else {
      assert RemoveAt(es, i)[j - 1] == x;
    }
  }

  lemma RemoveAtRanked(es: seq<KeywordEntry>, i: nat, rank: KeywordEntry -> int)
    requires i < |es| && RankedInOrder(es, rank)
    ensures RankedInOrder(RemoveAt(es, i), rank)
  {
    var r := RemoveAt(es, i);
    forall a, b | 0 <= a < b < |r| ensures rank(r[a]) < rank(r[b]) {
      var a' := if a < i then a else a + 1;
      var b' := if b < i then b else b + 1;
      assert r[a] == es[a'] && r[b] == es[b'];
    }
  }

  lemma RemoveAtDistinct(es: seq<KeywordEntry>, i: nat)
    requires i < |es| && DistinctTerms(es)
    ensures DistinctTerms(RemoveAt(es, i))
    ensures es[i].term !in Terms(RemoveAt(es, i))
  {
    var r := RemoveAt(es, i);
    forall a, b | 0 <= a < b < |r| ensures r[a].term != r[b].term {
      var a' := if a < i then a else a + 1;
      var b' := if b < i then b else b + 1;
      assert r[a] == es[a'] && r[b] == es[b'];
    }
    forall a | 0 <= a < |r| ensures r[a].term != es[i].term {
      var a' := if a < i then a else a + 1;
      assert r[a] == es[a'];
    }
  }

  /** The chosen entry outranks every other entry of `es`. */
  lemma ArgMaxOutranks(es: seq<KeywordEntry>, rank: KeywordEntry -> int, x: KeywordEntry)
    requires |es| > 0 && RankedInOrder(es, rank) && x in RemoveAt(es, ArgMax(es))
    ensures Outranks(es[ArgMax(es)], x, rank)
  {
    var i := ArgMax(es);
    RemoveAtMembers(es, i, x);
    var j :| 0 <= j < |es| && j != i && es[j] == x;
    if j < i {
      assert es[j].count < es[i].count;
    } else {
      assert rank(es[i]) < rank(es[j]);
    }
  }

  /** The entries of `most_common(k)` come from `es`. */
  lemma {:induction false} MostCommonFrom(es: seq<KeywordEntry>, k: nat)
    ensures forall e :: e in MostCommon(es, k) ==> e in es
    decreases k
  {
    if k != 0 && es != [] {
      var i := ArgMax(es);
      var r' := MostCommon(RemoveAt(es, i), k - 1);
      MostCommonFrom(RemoveAt(es, i), k - 1);
      forall e | e in r' ensures e in es {
        RemoveAtMembers(es, i, e);
      }
    }
  }

  /** `most_common(k)` repeats no term. */
  lemma {:induction false} MostCommonDistinct(es: seq<KeywordEntry>, k: nat)
    requires DistinctTerms(es)
    ensures DistinctTerms(MostCommon(es, k))
    decreases k
  {
    if k != 0 && es != [] {
      var i := ArgMax(es);
      var rest := RemoveAt(es, i);
      var r := MostCommon(es, k);
      var r' := MostCommon(rest, k - 1);
      assert r == [es[i]] + r';
      RemoveAtDistinct(es, i);
      MostCommonDistinct(rest, k - 1);
      MostCommonFrom(rest, k - 1);
      forall a, b | 0 <= a < b < |r| ensures r[a].term != r[b].term {
        if a > 0 {
          assert r[a] == r'[a - 1] && r[b] == r'[b - 1];
        } else {
          assert r[b] == r'[b - 1] && r[b] in r';
          assert r[b] in rest;
          var m :| 0 <= m < |rest| && rest[m] == r[b];
          assert Terms(rest)[m] == r[b].term;
        }
      }
    }
  }

  /** When `k` covers `es`, `most_common(k)` holds every entry. */
  lemma {:induction false} MostCommonAll(es: seq<KeywordEntry>, k: nat)
    requires k >= |es|
    ensures forall e :: e in es ==> e in MostCommon(es, k)
    decreases k
  {
    if k != 0 && es != [] {
      var i := ArgMax(es);
      var rest := RemoveAt(es, i);
      MostCommonAll(rest, k - 1);
      forall e | e in es ensures e in MostCommon(es, k) {
        if e != es[i] {
          RemoveAtKeeps(es, i, e);
        }
      }
    }
  }

  /** Each entry of `most_common(k)` outranks the later ones. */
  lemma {:induction false} MostCommonSorted(es: seq<KeywordEntry>, k: nat, rank: KeywordEntry -> int)
    requires RankedInOrder(es, rank)
    ensures forall a, b :: 0 <= a < b < |MostCommon(es, k)| ==>
      Outranks(MostCommon(es, k)[a], MostCommon(es, k)[b], rank)
    decreases k
  {
    if k != 0 && es != [] {
      var i := ArgMax(es);
      var rest := RemoveAt(es, i);
      var r := MostCommon(es, k);
      var r' := MostCommon(rest, k - 1);
      assert r == [es[i]] + r';
      RemoveAtRanked(es, i, rank);
      MostCommonSorted(rest, k - 1, rank);
      MostCommonFrom(rest, k - 1);
      forall a, b | 0 <= a < b < |r| ensures Outranks(r[a], r[b], rank) {
        if a > 0 {
          assert r[a] == r'[a - 1] && r[b] == r'[b - 1];
        } else {
          assert r[b] == r'[b - 1];
          ArgMaxOutranks(es, rank, r[b]);
        }
      }
    }
  }

  /** Every entry left out of `most_common(k)` is outranked by every entry in it. */
  lemma {:induction false} MostCommonOutranksRest(es: seq<KeywordEntry>, k: nat, rank: KeywordEntry -> int)
    requires RankedInOrder(es, rank)
    ensures forall x, e :: x in es && x !in MostCommon(es, k) && e in MostCommon(es, k) ==>
      Outranks(e, x, rank)
    decreases k
  {
    if k != 0 && es != [] {
      var i := ArgMax(es);
      var rest := RemoveAt(es, i);
      var r := MostCommon(es, k);
      var r' := MostCommon(rest, k - 1);
      assert r == [es[i]] + r';
      RemoveAtRanked(es, i, rank);
      MostCommonOutranksRest(rest, k - 1, rank);
      forall x, e | x in es && x !in r && e in r ensures Outranks(e, x, rank) {
        assert x != es[i];
        RemoveAtKeeps(es, i, x);
        if e == es[i] {
          ArgMaxOutranks(es, rank, x);
        } else {
          assert e in r';
          assert x !in r';
        }
      }
    }
  }

  /**
   * `most_common(k)` is the top of the stable sort:
   * its entries come from `es` without repetition, and all of them when `k` covers `es`;
   * each entry outranks the later ones; and every entry left out is outranked by every
   * entry returned.
   */
  lemma MostCommonIsTop(es: seq<KeywordEntry>, k: nat, rank: KeywordEntry -> int)
    requires DistinctTerms(es) && RankedInOrder(es, rank)
    ensures forall e :: e in MostCommon(es, k) ==> e in es
    ensures DistinctTerms(MostCommon(es, k))
    ensures k >= |es| ==> forall e :: e in es ==> e in MostCommon(es, k)
    ensures forall a, b :: 0 <= a < b < |MostCommon(es, k)| ==>
      Outranks(MostCommon(es, k)[a], MostCommon(es, k)[b], rank)
    ensures forall x, e :: x in es && x !in MostCommon(es, k) && e in MostCommon(es, k) ==>
      Outranks(e, x, rank)
  {
    MostCommonFrom(es, k);
    MostCommonDistinct(es, k);
    if k >= |es| {
      MostCommonAll(es, k);
    }
    MostCommonSorted(es, k, rank);
    MostCommonOutranksRest(es, k, rank);
  }
}
