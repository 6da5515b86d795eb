/**
 * The analysis agent: keyword statistics over a batch of papers, called directly or
 * through the shared message bus.
 */
module Analysis {
  import opened Options
  import opened Strings
  import opened Tokenizer
  import opened Counter
  import opened Messaging

  /** One paper as the research agent produces it. */
  datatype Paper = Paper(title: string, summary: string, published: string, link: string)

  /** The number of entries `most_common` is asked for. */
  const TopCount: nat := 5

  /** The text a paper contributes: title and summary joined by a space, lower-cased. */
  function PaperText(p: Paper): string {
    Lower(p.title + " " + p.summary)
  }

  /** Every token of every paper, in paper order: the `all_words` list. */
  function AllWords(papers: seq<Paper>): seq<string> {
    if papers == [] then []
    else AllWords(papers[..|papers| - 1]) + Tokens(PaperText(papers[|papers| - 1]))
  }

  /** The keyword table `analyze_papers` returns. */
  function TopKeywords(papers: seq<Paper>): seq<KeywordEntry> {
    MostCommon(Tally(AllWords(papers)), TopCount)
  }

  /** `e` is listed before `f` by `most_common`: a higher count, or the same count and an earlier first occurrence. */
  ghost predicate RanksAbove(words: seq<string>, e: KeywordEntry, f: KeywordEntry) {
    && e.term in words && f.term in words
    && (e.count > f.count
        || (e.count == f.count && FirstIndex(words, e.term) < FirstIndex(words, f.term)))
  }

  /** The entry `(w, number of occurrences of w)` for a word of `words`. */
  function EntryOf(words: seq<string>, w: string): KeywordEntry {
    KeywordEntry(w, multiset(words)[w])
  }

  /**
   * `r` is the result of `Counter(words).most_common(5)`: at most five distinct words of
   * `words` with their exact counts, all of them when there are fewer than five, listed
   * from the highest rank down, and outranking every word left out.
   */
  ghost predicate IsTopKeywords(r: seq<KeywordEntry>, words: seq<string>) {
    && |r| <= TopCount
    && DistinctTerms(r)
    && (r == [] <==> words == [])
    && (forall e :: e in r ==> e.term in words && e == EntryOf(words, e.term))
    && (|r| < TopCount ==> forall w :: w in words ==> w in Terms(r))
    && (forall a, b :: 0 <= a < b < |r| ==> RanksAbove(words, r[a], r[b]))
    && (forall w, e :: w in words && w !in Terms(r) && e in r ==> RanksAbove(words, e, EntryOf(words, w)))
  }

  /** The separating space keeps title words and summary words apart. */
  lemma PaperTokens(p: Paper)
    ensures Tokens(PaperText(p)) == Tokens(Lower(p.title)) + Tokens(Lower(p.summary))
  {
    LowerAppend(p.title, " " + p.summary);
    LowerAppend(" ", p.summary);
    assert p.title + " " + p.summary == p.title + (" " + p.summary);
    assert Lower(" ") == [' '];
    TokensSeparated(Lower(p.title), ' ', Lower(p.summary));
    assert Lower(p.title) + [' '] + Lower(p.summary) == PaperText(p);
  }

  /** Every extracted word is a lower-case keyword. */
  lemma {:induction false} AllWordsLower(papers: seq<Paper>)
    ensures forall w :: w in AllWords(papers) ==> IsLowerKeyword(w)
  {
    if papers != [] {
      AllWordsLower(papers[..|papers| - 1]);
      LowerTokens(papers[|papers| - 1].title + " " + papers[|papers| - 1].summary);
    }
  }

  /** No word is extracted exactly when no paper's text has a token. */
  lemma {:induction false} AllWordsEmpty(papers: seq<Paper>)
    ensures AllWords(papers) == [] <==> forall i :: 0 <= i < |papers| ==> Tokens(PaperText(papers[i])) == []
  {
    if papers != [] {
      var p := papers[..|papers| - 1];
      AllWordsEmpty(p);
      assert forall i :: 0 <= i < |p| ==> p[i] == papers[i];
    }
  }

  /** The keyword table meets its specification, and every term is a lower-case keyword. */
  lemma TopKeywordsCorrect(papers: seq<Paper>)
    ensures IsTopKeywords(TopKeywords(papers), AllWords(papers))
    ensures forall e :: e in TopKeywords(papers) ==> IsLowerKeyword(e.term)
  {
    var words := AllWords(papers);
    AllWordsLower(papers);
    MostCommonSpec(words);
  }

  /** Rank by first occurrence in `words`; the tie-break of a stable sort over a tally of `words`. */
  function FirstOccurrenceRank(words: seq<string>): KeywordEntry -> int {
    (e: KeywordEntry) => if e.term in words then FirstIndex(words, e.term) else -1
  }

  /** The facts about the tally and its top entries that the clauses of `IsTopKeywords` follow from. */
  lemma TallyTop(words: seq<string>)
    ensures IsTallyOf(Tally(words), words)
    ensures RankedInOrder(Tally(words), FirstOccurrenceRank(words))
    ensures var es, r, rank := Tally(words), MostCommon(Tally(words), TopCount), FirstOccurrenceRank(words);
      && (forall e :: e in r ==> e in es)
      && DistinctTerms(r)
      && (TopCount >= |es| ==> forall e :: e in es ==> e in r)
      && (forall a, b :: 0 <= a < b < |r| ==> Outranks(r[a], r[b], rank))
      && (forall x, e :: x in es && x !in r && e in r ==> Outranks(e, x, rank))
  {
    var es := Tally(words);
    var rank := FirstOccurrenceRank(words);
    TallyCorrect(words);
    assert RankedInOrder(es, rank) by {
      forall i, j | 0 <= i < j < |es| ensures rank(es[i]) < rank(es[j]) {
      }
    }
    MostCommonIsTop(es, TopCount, rank);
  }

  /** Each word of `words` has its exact entry in the tally. */
  lemma TallyEntry(words: seq<string>, w: string)
    requires IsTallyOf(Tally(words), words) && w in words
    ensures EntryOf(words, w) in Tally(words)
  {
    var es := Tally(words);
    assert w in Terms(es);
    var i :| 0 <= i < |es| && Terms(es)[i] == w;
    assert es[i] == EntryOf(words, w);
  }

  /** `Counter(words).most_common(5)` meets `IsTopKeywords`. */
  lemma MostCommonSpec(words: seq<string>)
    ensures IsTopKeywords(MostCommon(Tally(words), TopCount), words)
  {
    var es := Tally(words);
    var r := MostCommon(es, TopCount);
    var rank := FirstOccurrenceRank(words);
    TallyTop(words);
    forall e | e in r ensures e.term in words && e == EntryOf(words, e.term) {
      var i :| 0 <= i < |es| && es[i] == e;
      assert Terms(es)[i] == e.term;
    }
    forall a, b | 0 <= a < b < |r| ensures RanksAbove(words, r[a], r[b]) {
      assert r[a] in r && r[b] in r;
      assert Outranks(r[a], r[b], rank);
    }
    forall w, e | w in words && w !in Terms(r) && e in r ensures RanksAbove(words, e, EntryOf(words, w)) {
      TallyEntry(words, w);
      assert EntryOf(words, w) !in r;
      assert Outranks(e, EntryOf(words, w), rank);
    }
    if |r| < TopCount {
      forall w | w in words ensures w in Terms(r) {
        TallyEntry(words, w);
        var i :| 0 <= i < |r| && r[i] == EntryOf(words, w);
        assert Terms(r)[i] == w;
      }
    }
    if words != [] {
      TallyEntry(words, words[0]);
    }
  }

  /**
   * `analyze_papers`: gather the tokens of every paper's lower-cased title and summary,
   * count them, and return the five most common with their counts.
   */
  method AnalyzePapers(papers: seq<Paper>) returns (keywords: seq<KeywordEntry>)
    ensures keywords == TopKeywords(papers)
    ensures IsTopKeywords(keywords, AllWords(papers))
    ensures forall e :: e in keywords ==> IsLowerKeyword(e.term)
  {
    var allWords: seq<string> := [];
    for i := 0 to |papers|
      invariant allWords == AllWords(papers[..i])
    {
      var paper := papers[i];
      var text := Lower(paper.title + " " + paper.summary);
      var words := Tokens(text);
      allWords := allWords + words;
      assert papers[..i + 1][..i] == papers[..i];
    }
    assert papers[..|papers|] == papers;
    var keywordCounts := Tally(allWords);
    keywords := MostCommon(keywordCounts, TopCount);
    TopKeywordsCorrect(papers);
  }

  /** The values the analysis stage finds on the bus. */
  datatype Payload = PaperBatch(papers: seq<Paper>) | KeywordList(entries: seq<KeywordEntry>)

  /** How `analyze_from_bus` ends: a keyword table, or the TypeError of reading a non-paper as a paper. */
  datatype BusOutcome = Returned(keywords: seq<KeywordEntry>) | TypeErrorRaised

  const PapersTopic := "papers"
  const KeywordsTopic := "keywords"

  /** Python truthiness of what `consume("papers")` returned. */
  predicate Truthy(v: Option<Payload>) {
    match v
    case None => false
    case Some(PaperBatch(ps)) => ps != []
    case Some(KeywordList(es)) => es != []
  }

  /**
   * `analyze_from_bus`: read the "papers" topic; when it is absent or empty return no
   * keywords and publish nothing; otherwise publish the keyword table under "keywords"
   * and return it.
   */
  method AnalyzeFromBus(bus: MessageBus<Payload>) returns (out: BusOutcome)
    modifies bus
    ensures var slot := old(bus.Lookup(PapersTopic));
      !Truthy(slot) ==> out == Returned([]) && bus.state == old(bus.state)
    ensures var slot := old(bus.Lookup(PapersTopic));
      slot.Some? && slot.value.PaperBatch? && slot.value.papers != [] ==>
        && out == Returned(TopKeywords(slot.value.papers))
        && bus.state == old(bus.state)[KeywordsTopic := KeywordList(TopKeywords(slot.value.papers))]
    ensures var slot := old(bus.Lookup(PapersTopic));
      slot.Some? && slot.value.KeywordList? && slot.value.entries != [] ==>
        out == TypeErrorRaised && bus.state == old(bus.state)
  {
    var papers := bus.Consume(PapersTopic);
    if !Truthy(papers) {
      return Returned([]);
    }
    match papers.value
    case KeywordList(_) =>
      out := TypeErrorRaised;
    case PaperBatch(ps) =>
      var keywords := AnalyzePapers(ps);
      bus.Publish(KeywordsTopic, KeywordList(keywords));
      out := Returned(keywords);
  }
}
