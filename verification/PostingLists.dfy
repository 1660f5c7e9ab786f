/** What the inverted index of index.hpp means: posting lists over documents that are bags of
    words, of whatever type the words are. */
module PostingLists {
  import opened Common

  /** A document after cutting and lower-casing. */
  datatype Bag<W> = Bag(title: seq<W>, content: seq<W>)

  datatype InvertedElem<W> = InvertedElem(docId: nat, word: W, weight: int)
  datatype WordCnt = WordCnt(titleCnt: nat, contentCnt: nat)

  const X := 10
  const Y := 1

  // ---------- A scan of all the documents ----------

  ghost predicate InBag<W>(d: Bag<W>, w: W) {
    w in d.title || w in d.content
  }

  /** Ten points for each occurrence in the title, one for each in the content. */
  ghost function Weight<W>(d: Bag<W>, w: W): nat {
    10 * multiset(d.title)[w] + multiset(d.content)[w]
  }

  ghost function Postings<W>(docs: seq<Bag<W>>, w: W): seq<InvertedElem<W>> {
    if docs == [] then [] else
    var n := |docs| - 1;
    Postings(docs[..n], w) + (if InBag(docs[n], w) then [InvertedElem(n, w, Weight(docs[n], w))] else [])
  }

  ghost predicate PostingOk<W>(docs: seq<Bag<W>>, w: W, p: InvertedElem<W>) {
    && p.docId < |docs| && InBag(docs[p.docId], w)
    && p.word == w && p.weight == Weight(docs[p.docId], w)
  }

  /** A word's list has strictly increasing ids; each posting names a document that contains the
      word, with its weight. */
  lemma {:induction false} PostingsSound<W>(docs: seq<Bag<W>>, w: W)
    ensures Increasing(Postings(docs, w))
    ensures forall p | p in Postings(docs, w) :: PostingOk(docs, w, p)
  {
    if docs != [] {
      var n := |docs| - 1;
      var front := Postings(docs[..n], w);
      PostingsSound(docs[..n], w);
      forall p | p in front ensures PostingOk(docs, w, p) && p.docId < n {
        assert PostingOk(docs[..n], w, p);
      }
    }
  }

  ghost predicate Increasing<W>(ps: seq<InvertedElem<W>>) {
    forall a, b | 0 <= a < b < |ps| :: ps[a].docId < ps[b].docId
  }

  /** No document that contains the word is missing. */
  lemma {:induction false} PostingsComplete<W>(docs: seq<Bag<W>>, w: W, i: nat) returns (a: nat)
    requires i < |docs| && InBag(docs[i], w)
    ensures a < |Postings(docs, w)| && Postings(docs, w)[a].docId == i
  {
    var n := |docs| - 1;
    if i < n {
      a := PostingsComplete(docs[..n], w, i);
    } else {
      a := |Postings(docs[..n], w)|;
    }
  }

  // ---------- The index agrees with the scan ----------

  ghost predicate WordExact<W>(docs: seq<Bag<W>>, inverted: map<W, seq<InvertedElem<W>>>, w: W) {
    && (w in inverted <==> Postings(docs, w) != [])
    && (w in inverted ==> inverted[w] == Postings(docs, w))
  }

  ghost predicate Exact<W(!new)>(docs: seq<Bag<W>>, inverted: map<W, seq<InvertedElem<W>>>) {
    forall w :: WordExact(docs, inverted, w)
  }

  // ---------- Counting the words of a document ----------

  ghost function CountTitles<W>(ts: seq<W>): map<W, WordCnt> {
    if ts == [] then map[] else
    var m, s := CountTitles(ts[..|ts| - 1]), ts[|ts| - 1];
    var cnt := if s in m then m[s] else WordCnt(0, 0);
    m[s := cnt.(titleCnt := cnt.titleCnt + 1)]
  }

  ghost function CountContents<W>(titles: map<W, WordCnt>, cs: seq<W>): map<W, WordCnt> {
    if cs == [] then titles else
    var m, s := CountContents(titles, cs[..|cs| - 1]), cs[|cs| - 1];
    var cnt := if s in m then m[s] else WordCnt(0, 0);
    m[s := cnt.(contentCnt := cnt.contentCnt + 1)]
  }

  ghost predicate Counted<W(!new)>(wordMap: map<W, WordCnt>, d: Bag<W>) {
    && (forall w :: w in wordMap <==> InBag(d, w))
    && (forall w | w in wordMap :: wordMap[w] == WordCnt(multiset(d.title)[w], multiset(d.content)[w]))
  }

  lemma {:induction false} TitlesCounted<W(!new)>(ts: seq<W>)
    ensures Counted(CountTitles(ts), Bag(ts, []))
  {
    if ts != [] {
      var rest, s := ts[..|ts| - 1], ts[|ts| - 1];
      TitlesCounted(rest);
      assert ts == rest + [s];
      assert s in multiset(rest) <==> s in rest;
    }
  }

  lemma {:induction false} CountsExact<W(!new)>(ts: seq<W>, cs: seq<W>)
    ensures Counted(CountContents(CountTitles(ts), cs), Bag(ts, cs))
  {
    if cs == [] {
      TitlesCounted(ts);
    } else {
      var rest, s := cs[..|cs| - 1], cs[|cs| - 1];
      CountsExact(ts, rest);
      assert cs == rest + [s];
      assert s in multiset(rest) <==> s in rest;
      assert s in multiset(ts) <==> s in ts;
    }
  }

  // ---------- Appending the postings of one document ----------

  ghost function Appendix<W>(wordMap: map<W, WordCnt>, id: nat, left: set<W>, w: W): seq<InvertedElem<W>> {
    if w in wordMap && w !in left
    then [InvertedElem(id, w, X * wordMap[w].titleCnt + Y * wordMap[w].contentCnt)] else []
  }

  ghost function ListOf<W>(inverted: map<W, seq<InvertedElem<W>>>, w: W): seq<InvertedElem<W>> {
    if w in inverted then inverted[w] else []
  }

  /** The words of `wordMap` outside `left` have got their posting. */
  ghost predicate Appended<W(!new)>(before: map<W, seq<InvertedElem<W>>>, wordMap: map<W, WordCnt>, id: nat,
                                    left: set<W>, inverted: map<W, seq<InvertedElem<W>>>)
  {
    && (forall w :: w in inverted <==> w in before || (w in wordMap && w !in left))
    && (forall w :: ListOf(inverted, w) == ListOf(before, w) + Appendix(wordMap, id, left, w))
  }

  /** One more word gets its posting. */
  lemma AppendOne<W(!new)>(before: map<W, seq<InvertedElem<W>>>, wordMap: map<W, WordCnt>, id: nat,
                           left: set<W>, inverted: map<W, seq<InvertedElem<W>>>, word: W)
    requires Appended(before, wordMap, id, left, inverted) && word in left && word in wordMap
    ensures var item := InvertedElem(id, word, X * wordMap[word].titleCnt + Y * wordMap[word].contentCnt);
            Appended(before, wordMap, id, left - {word}, inverted[word := ListOf(inverted, word) + [item]])
  {
    var item := InvertedElem(id, word, X * wordMap[word].titleCnt + Y * wordMap[word].contentCnt);
    var next := inverted[word := ListOf(inverted, word) + [item]];
    forall w ensures ListOf(next, w) == ListOf(before, w) + Appendix(wordMap, id, left - {word}, w) {
      assert ListOf(inverted, w) == ListOf(before, w) + Appendix(wordMap, id, left, w);
    }
  }

  lemma NewDocumentExact<W(!new)>(docs: seq<Bag<W>>, d: Bag<W>, wordMap: map<W, WordCnt>,
                                  before: map<W, seq<InvertedElem<W>>>, inverted: map<W, seq<InvertedElem<W>>>)
    requires Exact(docs, before) && Counted(wordMap, d) && Appended(before, wordMap, |docs|, {}, inverted)
    ensures Exact(docs + [d], inverted)
  {
    assert (docs + [d])[..|docs|] == docs;
    forall w ensures WordExact(docs + [d], inverted, w) {
      assert WordExact(docs, before, w);
      assert ListOf(inverted, w) == ListOf(before, w) + Appendix(wordMap, |docs|, {}, w);
    }
  }

  // ---------- The weights of one document ----------

  ghost function Vocabulary<W>(d: Bag<W>): set<W> {
    Elements(d.title) + Elements(d.content)
  }

  ghost function Total<W>(ws: set<W>, weight: W -> int): int {
    if ws == {} then 0 else
    var w :| w in ws;
    weight(w) + Total(ws - {w}, weight)
  }

  lemma {:induction false} TotalRemove<W>(ws: set<W>, weight: W -> int, w: W)
    requires w in ws
    ensures Total(ws, weight) == weight(w) + Total(ws - {w}, weight)
    decreases ws
  {
    var x :| x in ws && Total(ws, weight) == weight(x) + Total(ws - {x}, weight);
    if x != w {
      TotalRemove(ws - {x}, weight, w);
      TotalRemove(ws - {w}, weight, x);
      assert ws - {x} - {w} == ws - {w} - {x};
    }
  }

  lemma {:induction false} TotalCombine<W(!new)>(ws: set<W>, f: W -> int, g: W -> int, h: W -> int, k: nat)
    requires forall w :: h(w) == k * f(w) + g(w)
    ensures Total(ws, h) == k * Total(ws, f) + Total(ws, g)
    decreases ws
  {
    if ws != {} {
      var w :| w in ws;
      TotalRemove(ws, f, w);
      TotalRemove(ws, g, w);
      TotalRemove(ws, h, w);
      TotalCombine(ws - {w}, f, g, h, k);
      assert k * (f(w) + Total(ws - {w}, f)) == k * f(w) + k * Total(ws - {w}, f);
    }
  }

  lemma {:induction false} TotalSame<W>(ws: set<W>, f: W -> int, g: W -> int)
    requires forall w | w in ws :: f(w) == g(w)
    ensures Total(ws, f) == Total(ws, g)
    decreases ws
  {
    if ws != {} {
      var w :| w in ws;
      TotalRemove(ws, f, w);
      TotalRemove(ws, g, w);
      TotalSame(ws - {w}, f, g);
    }
  }

  lemma {:induction false} TotalZero<W>(ws: set<W>, f: W -> int)
    requires forall w | w in ws :: f(w) == 0
    ensures Total(ws, f) == 0
    decreases ws
  {
    if ws != {} {
      var w :| w in ws;
      TotalRemove(ws, f, w);
      TotalZero(ws - {w}, f);
    }
  }

  /** Counting each word of a list gives the length of the list. */
  lemma {:induction false} TotalCounts<W>(ws: set<W>, list: seq<W>)
    requires forall w | w in list :: w in ws
    ensures Total(ws, w => multiset(list)[w]) == |list|
    decreases |list|
  {
    if list == [] {
      TotalZero(ws, w => multiset(list)[w]);
    } else {
      var rest, last := list[..|list| - 1], list[|list| - 1];
      assert list == rest + [last];
      TotalCounts(ws, rest);
      TotalRemove(ws, w => multiset(list)[w], last);
      TotalRemove(ws, w => multiset(rest)[w], last);
      TotalSame(ws - {last}, w => multiset(list)[w], w => multiset(rest)[w]);
    }
  }

  /** The weights of a document add up to its length, titles ten-fold, over any set that holds its words. */
  lemma WeightsAddUpOver<W(!new)>(ws: set<W>, d: Bag<W>)
    requires forall w | InBag(d, w) :: w in ws
    ensures Total(ws, w => Weight(d, w)) == 10 * |d.title| + |d.content|
  {
    forall w | w in d.title ensures w in ws { assert InBag(d, w); }
    forall w | w in d.content ensures w in ws { assert InBag(d, w); }
    TotalCounts(ws, d.title);
    TotalCounts(ws, d.content);
    TotalCombine(ws, w => multiset(d.title)[w], w => multiset(d.content)[w], w => Weight(d, w), 10);
  }

  lemma WeightsAddUp<W(!new)>(d: Bag<W>)
    ensures Total(Vocabulary(d), w => Weight(d, w)) == 10 * |d.title| + |d.content|
  {
    WeightsAddUpOver(Vocabulary(d), d);
  }

  /** What a list holds for document i: the weights of all its postings with that id. */
  ghost function WeightFor<W>(list: seq<InvertedElem<W>>, i: nat): int {
    if list == [] then 0 else
    var p := list[|list| - 1];
    WeightFor(list[..|list| - 1], i) + (if p.docId == i then p.weight else 0)
  }

  lemma {:induction false} PostedWeight<W>(docs: seq<Bag<W>>, w: W, i: nat)
    ensures WeightFor(Postings(docs, w), i) == if i < |docs| then Weight(docs[i], w) else 0
  {
    if docs != [] {
      var n := |docs| - 1;
      var front := Postings(docs[..n], w);
      PostedWeight(docs[..n], w, i);
      if InBag(docs[n], w) {
        assert Postings(docs, w)[..|front|] == front;
      } else {
        assert Postings(docs, w) == front;
      }
    }
  }

  /** The weights of the postings of document i over the whole index. */
  lemma PostedWeightsAddUp<W(!new)>(docs: seq<Bag<W>>, inverted: map<W, seq<InvertedElem<W>>>, i: nat)
    requires Exact(docs, inverted) && i < |docs|
    ensures Total(inverted.Keys, w => WeightFor(ListOf(inverted, w), i)) == 10 * |docs[i].title| + |docs[i].content|
  {
    forall w | w in inverted.Keys ensures WeightFor(ListOf(inverted, w), i) == Weight(docs[i], w) {
      assert WordExact(docs, inverted, w);
      PostedWeight(docs, w, i);
    }
    forall w | InBag(docs[i], w) ensures w in inverted.Keys {
      assert WordExact(docs, inverted, w);
      var a := PostingsComplete(docs, w, i);
    }
    TotalSame(inverted.Keys, w => WeightFor(ListOf(inverted, w), i), w => Weight(docs[i], w));
    WeightsAddUpOver(inverted.Keys, docs[i]);
  }

  // ---------- Queries ----------

  /** The query words that occur in the document, in the order of the query. */
  ghost function HitWords<W>(d: Bag<W>, query: seq<W>): seq<W> {
    if query == [] then [] else
    var n := |query| - 1;
    HitWords(d, query[..n]) + (if InBag(d, query[n]) then [query[n]] else [])
  }

  ghost function Score<W>(d: Bag<W>, query: seq<W>): nat {
    if query == [] then 0 else
    var n := |query| - 1;
    Score(d, query[..n]) + Weight(d, query[n])
  }

  lemma {:induction false} HitWordsExact<W>(d: Bag<W>, query: seq<W>)
    ensures forall w | w in HitWords(d, query) :: w in query && InBag(d, w)
    ensures forall k | 0 <= k < |query| && InBag(d, query[k]) :: query[k] in HitWords(d, query)
  {
    if query != [] {
      var n := |query| - 1;
      HitWordsExact(d, query[..n]);
      forall k | 0 <= k < |query| && InBag(d, query[k]) ensures query[k] in HitWords(d, query) {
        if k < n { assert query[..n][k] == query[k]; }
      }
    }
  }

  /** The first hit is the first query word that occurs. */
  lemma {:induction false} FirstHitWord<W>(d: Bag<W>, query: seq<W>) returns (k: nat)
    requires HitWords(d, query) != []
    ensures k < |query| && query[k] == HitWords(d, query)[0]
    ensures InBag(d, query[k]) && forall j | 0 <= j < k :: !InBag(d, query[j])
  {
    var n := |query| - 1;
    if HitWords(d, query[..n]) == [] {
      k := n;
      HitWordsExact(d, query[..n]);
      forall j | 0 <= j < n ensures !InBag(d, query[j]) { assert query[..n][j] == query[j]; }
    } else {
      k := FirstHitWord(d, query[..n]);
      forall j | 0 <= j < k ensures !InBag(d, query[j]) { assert query[..n][j] == query[j]; }
    }
  }

  /** A document has a score exactly when some query word occurs in it. */
  lemma {:induction false} ScorePositive<W>(d: Bag<W>, query: seq<W>)
    ensures Score(d, query) > 0 <==> HitWords(d, query) != []
  {
    if query != [] {
      ScorePositive(d, query[..|query| - 1]);
    }
  }

  /** Scores add over the concatenation of queries. */
  lemma {:induction false} ScoreConcat<W>(d: Bag<W>, a: seq<W>, b: seq<W>)
    ensures Score(d, a + b) == Score(d, a) + Score(d, b)
    decreases |b|
  {
    if b == [] {
      assert a + b == a;
    } else {
      assert (a + b)[..|a + b| - 1] == a + b[..|b| - 1];
      ScoreConcat(d, a, b[..|b| - 1]);
    }
  }

  /** Scores do not depend on the order of the query words. */
  lemma {:induction false} ScoreIgnoresOrder<W>(d: Bag<W>, a: seq<W>, b: seq<W>)
    requires multiset(a) == multiset(b)
    ensures Score(d, a) == Score(d, b)
    decreases |a|
  {
    if a == [] {
      assert |multiset(b)| == |b| && |multiset(a)| == 0;
    } else {
      var n, x := |a| - 1, a[|a| - 1];
      assert a == a[..n] + [x];
      assert x in multiset(b);
      var k :| 0 <= k < |b| && b[k] == x;
      var b' := b[..k] + b[k + 1..];
      assert b == b[..k] + [x] + b[k + 1..];
      assert multiset(b') == multiset(b) - multiset{x};
      ScoreIgnoresOrder(d, a[..n], b');
      ScoreConcat(d, b[..k] + [x], b[k + 1..]);
      ScoreConcat(d, b[..k], [x]);
      ScoreConcat(d, b[..k], b[k + 1..]);
      assert Score(d, [x]) == Weight(d, x) by { assert [x][..0] == []; }
    }
  }
}
