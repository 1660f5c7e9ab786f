/** How searcher.hpp merges the posting lists of the query words, against a brute-force scan. */
module QueryMerge {
  import opened PostingLists

  /** InvertedElemPrint: what is known of a matching document. */
  datatype Hit<W> = Hit(docId: nat, weight: int, words: seq<W>)

  ghost function Entry<W>(d: Bag<W>, i: nat, query: seq<W>): Hit<W> {
    Hit(i, Score(d, query), HitWords(d, query))
  }

  /** The map holds what a look at document i for the words of `query` finds. */
  ghost predicate Holds<W>(m: map<nat, Hit<W>>, docs: seq<Bag<W>>, i: nat, query: seq<W>) {
    && (i in m <==> i < |docs| && HitWords(docs[i], query) != [])
    && (i in m ==> m[i] == Entry(docs[i], i, query))
  }

  /** The map is the result of a scan: one entry for each document in which some query word occurs. */
  ghost predicate Scanned<W>(m: map<nat, Hit<W>>, docs: seq<Bag<W>>, query: seq<W>) {
    forall i: nat :: Holds(m, docs, i, query)
  }

  /** One turn of the merging loop: the entry of the document is made if need be, and added to. */
  function MergeOne<W>(m: map<nat, Hit<W>>, p: InvertedElem<W>): map<nat, Hit<W>> {
    var item := if p.docId in m then m[p.docId] else Hit(p.docId, 0, []);
    m[p.docId := Hit(p.docId, item.weight + p.weight, item.words + [p.word])]
  }

  ghost function MergeAll<W>(m: map<nat, Hit<W>>, ps: seq<InvertedElem<W>>): map<nat, Hit<W>> {
    if ps == [] then m else MergeOne(MergeAll(m, ps[..|ps| - 1]), ps[|ps| - 1])
  }

  /** What is looked up in document i when the word w has been looked up in the first k only. */
  ghost function Asked<W>(query: seq<W>, w: W, i: nat, k: nat): seq<W> {
    if i < k then query + [w] else query
  }

  ghost predicate PartScanned<W>(m: map<nat, Hit<W>>, docs: seq<Bag<W>>, query: seq<W>, w: W, k: nat) {
    forall i: nat :: HoldsPart(m, docs, i, query, w, k)
  }

  ghost predicate HoldsPart<W>(m: map<nat, Hit<W>>, docs: seq<Bag<W>>, i: nat, query: seq<W>, w: W, k: nat) {
    Holds(m, docs, i, Asked(query, w, i, k))
  }

  lemma OneMoreWord<W>(d: Bag<W>, query: seq<W>, w: W)
    ensures HitWords(d, query + [w]) == HitWords(d, query) + (if InBag(d, w) then [w] else [])
    ensures Score(d, query + [w]) == Score(d, query) + Weight(d, w)
    ensures !InBag(d, w) ==> Weight(d, w) == 0
    ensures HitWords(d, query) == [] ==> Score(d, query) == 0
  {
    assert (query + [w])[..|query|] == query;
    ScorePositive(d, query);
  }

  lemma PartStep<W>(m: map<nat, Hit<W>>, docs: seq<Bag<W>>, query: seq<W>, w: W, k: nat)
    requires k < |docs| && PartScanned(m, docs, query, w, k)
    ensures PartScanned(if InBag(docs[k], w) then MergeOne(m, InvertedElem(k, w, Weight(docs[k], w))) else m,
        docs, query, w, k + 1)
  {
    var m' := if InBag(docs[k], w) then MergeOne(m, InvertedElem(k, w, Weight(docs[k], w))) else m;
    var next := k + 1;
    forall i: nat ensures HoldsPart(m', docs, i, query, w, next) {
      assert HoldsPart(m, docs, i, query, w, k);
      if i == k { OneMoreWord(docs[k], query, w); }
    }
  }

  lemma MergeStep<W>(m: map<nat, Hit<W>>, docs: seq<Bag<W>>, w: W, k: nat)
    requires k < |docs|
    ensures var merged := MergeAll(m, Postings(docs[..k], w));
            MergeAll(m, Postings(docs[..k + 1], w)) ==
            if InBag(docs[k], w) then MergeOne(merged, InvertedElem(k, w, Weight(docs[k], w))) else merged
  {
    var front := Postings(docs[..k], w);
    assert docs[..k + 1][..k] == docs[..k] && docs[..k + 1][k] == docs[k];
    if InBag(docs[k], w) {
      var p := InvertedElem(k, w, Weight(docs[k], w));
      assert Postings(docs[..k + 1], w) == front + [p];
      assert (front + [p])[..|front|] == front;
    } else {
      assert Postings(docs[..k + 1], w) == front;
    }
  }

  lemma {:induction false} MergePrefix<W>(m: map<nat, Hit<W>>, docs: seq<Bag<W>>, query: seq<W>, w: W, k: nat)
    requires k <= |docs| && Scanned(m, docs, query)
    ensures PartScanned(MergeAll(m, Postings(docs[..k], w)), docs, query, w, k)
  {
    if k == 0 {
      forall i: nat ensures HoldsPart(m, docs, i, query, w, k) { assert Holds(m, docs, i, query); }
    } else {
      var j := k - 1;
      MergePrefix(m, docs, query, w, j);
      PartStep(MergeAll(m, Postings(docs[..j], w)), docs, query, w, j);
      MergeStep(m, docs, w, j);
    }
  }

  /** Merging the posting list of one more word is scanning for one more word. */
  lemma MergeIsScan<W>(m: map<nat, Hit<W>>, docs: seq<Bag<W>>, query: seq<W>, w: W)
    requires Scanned(m, docs, query)
    ensures Scanned(MergeAll(m, Postings(docs, w)), docs, query + [w])
  {
    MergePrefix(m, docs, query, w, |docs|);
    assert docs[..|docs|] == docs;
    var m' := MergeAll(m, Postings(docs, w));
    forall i: nat ensures Holds(m', docs, i, query + [w]) {
      assert HoldsPart(m', docs, i, query, w, |docs|);
    }
  }

  // ---------- The ranked result ----------

  ghost predicate ByWeight<W>(hits: seq<Hit<W>>) {
    forall a, b | 0 <= a < b < |hits| :: hits[a].weight >= hits[b].weight
  }

  ghost predicate OncePerDocument<W>(hits: seq<Hit<W>>) {
    forall a, b | 0 <= a < b < |hits| :: hits[a].docId != hits[b].docId
  }

  /** Every matching document exactly once, with its score and matching words, best first; ties
      in any order. */
  ghost predicate Ranked<W>(docs: seq<Bag<W>>, query: seq<W>, hits: seq<Hit<W>>) {
    && ByWeight(hits) && OncePerDocument(hits)
    && (forall h | h in hits :: h.docId < |docs| && HitWords(docs[h.docId], query) != []
                                && h == Entry(docs[h.docId], h.docId, query))
    && (forall i | 0 <= i < |docs| && HitWords(docs[i], query) != [] :: exists h :: h in hits && h.docId == i)
  }

  /** The ranked list holds the values of the merged map. */
  ghost predicate ValuesOf<W>(hits: seq<Hit<W>>, m: map<nat, Hit<W>>) {
    && OncePerDocument(hits)
    && (forall h | h in hits :: h.docId in m && m[h.docId] == h)
    && (forall i | i in m :: m[i] in hits)
  }

  lemma SortedValuesAreRanked<W>(docs: seq<Bag<W>>, query: seq<W>, hits: seq<Hit<W>>, m: map<nat, Hit<W>>)
    requires Scanned(m, docs, query) && ValuesOf(hits, m) && ByWeight(hits)
    ensures Ranked(docs, query, hits)
  {
    forall h | h in hits
      ensures h.docId < |docs| && HitWords(docs[h.docId], query) != [] && h == Entry(docs[h.docId], h.docId, query)
    {
      assert Holds(m, docs, h.docId, query);
    }
    forall i | 0 <= i < |docs| && HitWords(docs[i], query) != [] ensures exists h :: h in hits && h.docId == i {
      assert Holds(m, docs, i, query);
      assert m[i] in hits;
    }
  }

  /** tokens_map is emptied into a vector, in the order of the hash map, which is any order. */
  method Values<W>(m: map<nat, Hit<W>>) returns (hits: seq<Hit<W>>)
    requires forall i | i in m :: m[i].docId == i
    ensures ValuesOf(hits, m)
  {
    hits := [];
    var left := m.Keys;
    while left != {}
      invariant left <= m.Keys
      invariant OncePerDocument(hits)
      invariant forall h | h in hits :: h.docId in m && h.docId !in left && m[h.docId] == h
      invariant forall i | i in m && i !in left :: m[i] in hits
      decreases left
    {
      var i :| i in left;
      hits := hits + [m[i]];
      left := left - {i};
    }
  }

  function InsertByWeight<W>(h: Hit<W>, hits: seq<Hit<W>>): seq<Hit<W>> {
    if hits == [] || h.weight >= hits[0].weight then [h] + hits else [hits[0]] + InsertByWeight(h, hits[1..])
  }

  lemma {:induction false} InsertKeepsElements<W>(h: Hit<W>, hits: seq<Hit<W>>)
    ensures multiset(InsertByWeight(h, hits)) == multiset{h} + multiset(hits)
  {
    if hits != [] && h.weight < hits[0].weight {
      InsertKeepsElements(h, hits[1..]);
      assert hits == [hits[0]] + hits[1..];
    }
  }

  lemma {:induction false} InsertKeepsOrder<W>(h: Hit<W>, hits: seq<Hit<W>>)
    requires ByWeight(hits)
    ensures ByWeight(InsertByWeight(h, hits))
  {
    if hits != [] && h.weight < hits[0].weight {
      InsertKeepsOrder(h, hits[1..]);
      var rest := InsertByWeight(h, hits[1..]);
      InsertKeepsElements(h, hits[1..]);
      forall b | 0 <= b < |rest| ensures hits[0].weight >= rest[b].weight {
        assert rest[b] in multiset(rest);
        assert rest[b] == h || rest[b] in multiset(hits[1..]);
      }
    }
  }

  /** Stands for std::sort with the weight comparison, which promises no more than this. */
  method SortByWeight<W>(hits: seq<Hit<W>>) returns (r: seq<Hit<W>>)
    ensures ByWeight(r) && multiset(r) == multiset(hits)
  {
    r := [];
    for i := 0 to |hits|
      invariant ByWeight(r) && multiset(r) == multiset(hits[..i])
    {
      InsertKeepsOrder(hits[i], r);
      InsertKeepsElements(hits[i], r);
      assert hits[..i + 1] == hits[..i] + [hits[i]];
      r := InsertByWeight(hits[i], r);
    }
    assert hits[..|hits|] == hits;
  }

  lemma SortedValues<W>(hits: seq<Hit<W>>, r: seq<Hit<W>>, m: map<nat, Hit<W>>)
    requires ValuesOf(hits, m) && multiset(r) == multiset(hits)
    ensures ValuesOf(r, m)
  {
    forall h ensures h in r <==> h in hits {
      assert h in multiset(r) <==> h in r;
      assert h in multiset(hits) <==> h in hits;
    }
    forall a, b | 0 <= a < b < |r| ensures r[a].docId != r[b].docId {
      if r[a].docId == r[b].docId {
        assert r[a] in hits && r[b] in hits;
        TwiceIsTwice(r, a, b);
        OnceIsOnce(hits, r[a]);
      }
    }
    forall i | i in m ensures m[i] in r { assert m[i] in hits; }
  }

  lemma TwiceIsTwice<T>(s: seq<T>, a: nat, b: nat)
    requires a < b < |s| && s[a] == s[b]
    ensures multiset(s)[s[a]] >= 2
  {
    assert s == s[..b] + [s[b]] + s[b + 1..];
    assert s[..b][a] == s[a];
    assert s[a] in multiset(s[..b]);
  }

  lemma OnceIsOnce<W>(hits: seq<Hit<W>>, h: Hit<W>)
    requires OncePerDocument(hits) && h in hits
    ensures multiset(hits)[h] == 1
  {
    var k :| 0 <= k < |hits| && hits[k] == h;
    assert hits == hits[..k] + [h] + hits[k + 1..];
    assert h !in hits[..k] && h !in hits[k + 1..];
    assert h !in multiset(hits[..k]) && h !in multiset(hits[k + 1..]);
  }
}
