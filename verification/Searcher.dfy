/** searcher.hpp: answering a query, and the snippet shown with a hit. */
module Searcher {
  import opened Common
  import opened Text
  import opened Util
  import opened PostingLists
  import opened QueryMerge
  import opened InvertedIndex

  const PREV_STEP := 50
  const NEXT_STEP := 100

  /** One element of the JSON answer. */
  datatype Item = Item(title: string, desc: string, url: string, weight: int, id: nat)

  // ---------- GetDesc ----------

  /** The word occurs first at i, upper and lower case being the same. */
  ghost predicate FirstMatch(content: string, word: string, i: nat) {
    FirstAt(Lower(content), Lower(word), i)
  }

  function WindowStart(pos: nat): nat {
    if pos - PREV_STEP > 0 then pos - PREV_STEP else 0
  }

  function WindowEnd(content: string, pos: nat): int {
    if pos + NEXT_STEP < |content| - 1 then pos + NEXT_STEP else |content| - 1
  }

  ghost predicate Windowed(content: string, word: string, pos: nat, desc: string) {
    && FirstMatch(content, word, pos)
    && WindowStart(pos) <= WindowEnd(content, pos) <= |content|
    && desc == content[WindowStart(pos)..WindowEnd(content, pos)]
  }

  /** "None" if the word does not occur, else the window around its first occurrence. */
  ghost predicate Describes(content: string, word: string, desc: string) {
    if content == "" || !Infix(Lower(word), Lower(content)) then desc == "None"
    else exists pos: nat :: Windowed(content, word, pos, desc)
  }

  method GetDesc(content: string, word: string) returns (desc: string)
    ensures Describes(content, word, desc)
  {
    var iter := Find(Lower(content), Lower(word));
    if iter.Some? && content != "" { WindowHoldsMatch(content, word, iter.value); }
    if iter.None? || iter.value == |content| {
      return "None";
    }
    var pos := iter.value;
    var start, end := 0, |content| - 1;
    if pos - PREV_STEP > start { start := pos - PREV_STEP; }
    if pos + NEXT_STEP < end { end := pos + NEXT_STEP; }
    if start > end {
      return "None";
    }
    desc := content[start..end];
    assert Windowed(content, word, pos, desc);
  }

  /** Once there is a match the second "None" branch is dead. The window starts 50 characters before the
      match or with the content, ends 100 characters after it or before the last character, and holds the
      whole match exactly when the word is at most 100 long and does not end on the last character. */
  lemma WindowHoldsMatch(content: string, word: string, pos: nat)
    requires content != "" && FirstMatch(content, word, pos)
    ensures var start, end := WindowStart(pos), WindowEnd(content, pos);
            && 0 <= start <= pos < |content| && start <= end < |content|
            && pos - start == (if pos >= 50 then 50 else pos)
            && end == (if pos + 100 < |content| then pos + 100 else |content| - 1)
            && (pos + |word| <= end <==> |word| <= 100 && pos + |word| < |content|)
  {
    if pos == |content| {
      assert OccursAt(Lower(content), Lower(word), 0);
    }
  }

  /** The text around the first occurrence of the word, from 50 characters before it to 100 after its
      start, as far as there are any but the last; it shows the whole match unless the word is longer
      than 100 or ends on the last character. */
  ghost predicate SnippetAt(content: string, word: string, pos: nat, start: nat, end: nat, desc: string) {
    && FirstMatch(content, word, pos)
    && start <= pos && start <= end < |content| && desc == content[start..end]
    && pos - start == (if pos >= 50 then 50 else pos)
    && end == (if pos + 100 < |content| then pos + 100 else |content| - 1)
    && (pos + |word| <= end <==> |word| <= 100 && pos + |word| < |content|)
    && (pos + |word| <= end ==> OccursAt(Lower(desc), Lower(word), pos - start))
  }

  ghost predicate Snippet(content: string, word: string, desc: string) {
    exists pos: nat, start: nat, end: nat :: SnippetAt(content, word, pos, start, end, desc)
  }

  lemma MatchInSlice(content: string, word: string, pos: nat, start: nat, end: nat)
    requires OccursAt(Lower(content), Lower(word), pos) && start <= pos && pos + |word| <= end <= |content|
    ensures OccursAt(Lower(content[start..end]), Lower(word), pos - start)
  {
    LowerSlice(content, start, end);
    var low := Lower(content);
    assert low[start..end][pos - start..pos - start + |word|] == low[pos..pos + |word|];
  }

  /** A word that occurs gets a snippet: neither "None" branch is taken. */
  lemma FoundWordHasSnippet(content: string, word: string, desc: string)
    requires content != "" && Infix(Lower(word), Lower(content)) && Describes(content, word, desc)
    ensures Snippet(content, word, desc)
  {
    var pos: nat :| Windowed(content, word, pos, desc);
    WindowHoldsMatch(content, word, pos);
    var start, end := WindowStart(pos), WindowEnd(content, pos);
    if pos + |word| <= end { MatchInSlice(content, word, pos, start, end); }
    assert SnippetAt(content, word, pos, start, end, desc);
  }

  // ---------- Search ----------

  class Searcher {
    const index: Index

    constructor (index: Index)
      ensures this.index == index
    {
      this.index := index;
    }

    /** Adds one posting list to the table of matching documents. */
    method Merge(table: map<nat, Hit<string>>, list: seq<InvertedElem<string>>) returns (r: map<nat, Hit<string>>)
      ensures r == MergeAll(table, list)
    {
      r := table;
      for i := 0 to |list|
        invariant r == MergeAll(table, list[..i])
      {
        assert list[..i + 1][..i] == list[..i];
        r := MergeOne(r, list[i]);
      }
      assert list[..|list|] == list;
    }

    /** Looks up the query words one after the other. */
    method Trigger(words: seq<string>) returns (table: map<nat, Hit<string>>)
      requires index.Valid()
      ensures Scanned(table, index.View(), LowerAll(words))
    {
      table := map[];
      ghost var query := LowerAll(words);
      for i := 0 to |words|
        invariant Scanned(table, index.View(), query[..i])
      {
        var word := Lower(words[i]);
        assert query[..i + 1] == query[..i] + [word];
        var list := index.GetInvertedList(word);
        MergeIsScan(table, index.View(), query[..i], word);
        if list.None? {
          continue;
        }
        table := Merge(table, list.value);
      }
      assert query[..|words|] == query;
    }

    /** Empties the table into a vector and sorts it. */
    method Rank(table: map<nat, Hit<string>>, ghost query: seq<string>) returns (hits: seq<Hit<string>>)
      requires Scanned(table, index.View(), query)
      ensures Ranked(index.View(), query, hits)
    {
      forall i | i in table ensures table[i].docId == i { assert Holds(table, index.View(), i, query); }
      var all := Values(table);
      hits := SortByWeight(all);
      SortedValues(all, hits, table);
      SortedValuesAreRanked(index.View(), query, hits, table);
    }

    method Render(hits: seq<Hit<string>>) returns (items: seq<Item>)
      requires forall k | 0 <= k < |hits| :: hits[k].docId < |index.forward| && hits[k].words != []
      ensures |items| == |hits| && forall k | 0 <= k < |items| :: Shows(index.forward, hits[k], items[k])
    {
      items := [];
      for k := 0 to |hits|
        invariant |items| == k
        invariant forall j | 0 <= j < k :: Shows(index.forward, hits[j], items[j])
      {
        var item := hits[k];
        var doc := index.GetForwardIndex(item.docId);
        if doc.None? {
          continue;
        }
        var desc := GetDesc(doc.value.content, item.words[0]);
        items := items + [Item(doc.value.title, desc, doc.value.url, item.weight, item.docId)];
      }
    }

    /** The documents that match, each once, with exact scores, best first. */
    method Search(query: string) returns (items: seq<Item>)
      requires index.Valid()
      ensures Answers(index.jieba.View(), index.forward, index.jieba.View().Words(query), items)
    {
      var words := index.jieba.CutStringHelper(query);
      var table := Trigger(words);
      var hits := Rank(table, LowerAll(words));
      assert forall k | 0 <= k < |hits| :: hits[k] in hits;
      items := Render(hits);
      RankedAnswers(index.jieba.View(), index.forward, LowerAll(words), hits, items);
    }
  }

  /** The item shows the document of the hit, with the snippet for its first matching word. */
  ghost predicate Shows(docs: seq<DocInfo>, hit: Hit<string>, item: Item) {
    && hit.docId < |docs| && hit.words != []
    && item.id == hit.docId && item.weight == hit.weight
    && item.title == docs[hit.docId].title && item.url == docs[hit.docId].url
    && Describes(docs[hit.docId].content, hit.words[0], item.desc)
  }

  // ---------- What an answer must be ----------

  ghost predicate Occurs(lex: Lexicon, d: DocInfo, w: string) {
    w in lex.Words(d.title) || w in lex.Words(d.content)
  }

  /** Summed over the query words: ten points for each occurrence in the title, one in the content. */
  ghost function QueryWeight(lex: Lexicon, d: DocInfo, query: seq<string>): nat {
    if query == [] then 0 else
    var n := |query| - 1;
    QueryWeight(lex, d, query[..n]) +
    10 * multiset(lex.Words(d.title))[query[n]] + multiset(lex.Words(d.content))[query[n]]
  }

  lemma {:induction false} ScoreIsQueryWeight(lex: Lexicon, d: DocInfo, query: seq<string>)
    ensures Score(BagOf(lex, d), query) == QueryWeight(lex, d, query)
  {
    if query != [] { ScoreIsQueryWeight(lex, d, query[..|query| - 1]); }
  }

  /** The first query word that occurs in the document is the one at k. */
  ghost predicate FirstOccurs(lex: Lexicon, d: DocInfo, query: seq<string>, k: nat) {
    k < |query| && Occurs(lex, d, query[k]) && forall j | 0 <= j < k :: !Occurs(lex, d, query[j])
  }

  ghost predicate Matches(lex: Lexicon, d: DocInfo, query: seq<string>) {
    exists w :: w in query && Occurs(lex, d, w)
  }

  lemma MatchesHits(lex: Lexicon, d: DocInfo, query: seq<string>)
    ensures Matches(lex, d, query) <==> HitWords(BagOf(lex, d), query) != []
  {
    var bag := BagOf(lex, d);
    HitWordsExact(bag, query);
    if HitWords(bag, query) != [] { assert HitWords(bag, query)[0] in query; }
  }

  ghost predicate Described(lex: Lexicon, d: DocInfo, query: seq<string>, desc: string) {
    exists k: nat :: FirstOccurs(lex, d, query, k) && Describes(d.content, query[k], desc)
  }

  /** The item shows a matching document, its exact weight, and the text around its first query word. */
  ghost predicate ItemOk(lex: Lexicon, docs: seq<DocInfo>, query: seq<string>, item: Item) {
    && item.id < |docs|
    && var d := docs[item.id];
    && Matches(lex, d, query) && item.weight == QueryWeight(lex, d, query)
    && item.title == d.title && item.url == d.url && Described(lex, d, query, item.desc)
  }

  lemma HitIsOk(lex: Lexicon, docs: seq<DocInfo>, query: seq<string>, hit: Hit<string>, item: Item)
    requires Shows(docs, hit, item)
    requires hit == Entry(BagOf(lex, docs[hit.docId]), hit.docId, query)
    ensures ItemOk(lex, docs, query, item)
  {
    var d := docs[hit.docId];
    ScoreIsQueryWeight(lex, d, query);
    MatchesHits(lex, d, query);
    var k := FirstHitWord(BagOf(lex, d), query);
    assert FirstOccurs(lex, d, query, k);
  }

  ghost predicate Shown(items: seq<Item>, i: nat) {
    exists k :: 0 <= k < |items| && items[k].id == i
  }

  /** The brute-force answer: every matching document exactly once, best first; ties in any order. */
  ghost predicate Answers(lex: Lexicon, docs: seq<DocInfo>, query: seq<string>, items: seq<Item>) {
    && (forall a, b | 0 <= a < b < |items| :: items[a].weight >= items[b].weight && items[a].id != items[b].id)
    && (forall k | 0 <= k < |items| :: ItemOk(lex, docs, query, items[k]))
    && (forall i | 0 <= i < |docs| && Matches(lex, docs[i], query) :: Shown(items, i))
  }

  lemma RankedAnswers(lex: Lexicon, docs: seq<DocInfo>, query: seq<string>, hits: seq<Hit<string>>, items: seq<Item>)
    requires Ranked(Bags(lex, docs), query, hits)
    requires |items| == |hits| && forall k | 0 <= k < |items| :: Shows(docs, hits[k], items[k])
    ensures Answers(lex, docs, query, items)
  {
    forall k | 0 <= k < |items| ensures ItemOk(lex, docs, query, items[k]) {
      assert hits[k] in hits && Shows(docs, hits[k], items[k]);
      HitIsOk(lex, docs, query, hits[k], items[k]);
    }
    forall a, b | 0 <= a < b < |items| ensures items[a].weight >= items[b].weight && items[a].id != items[b].id {
      assert Shows(docs, hits[a], items[a]) && Shows(docs, hits[b], items[b]);
    }
    forall i | 0 <= i < |docs| && Matches(lex, docs[i], query) ensures Shown(items, i) {
      MatchesHits(lex, docs[i], query);
      assert HitWords(Bags(lex, docs)[i], query) != [];
      var h :| h in hits && h.docId == i;
      var k :| 0 <= k < |hits| && hits[k] == h;
      assert Shows(docs, hits[k], items[k]);
    }
  }
}
