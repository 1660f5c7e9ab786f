/** index.hpp: the forward index and the inverted index, built line by line. */
module InvertedIndex {
  import opened Common
  import opened Text
  import opened Util
  import opened PostingLists
  import HtmlParser

  datatype DocInfo = DocInfo(title: string, content: string, url: string, docId: nat)

  ghost function BagOf(lex: Lexicon, d: DocInfo): Bag<string> {
    Bag(lex.Words(d.title), lex.Words(d.content))
  }

  ghost function Bags(lex: Lexicon, docs: seq<DocInfo>): seq<Bag<string>> {
    seq(|docs|, i requires 0 <= i < |docs| => BagOf(lex, docs[i]))
  }

  /** Ids are positions, and for every word the inverted index agrees with a scan. */
  ghost predicate Agrees(lex: Lexicon, docs: seq<DocInfo>, inverted: map<string, seq<InvertedElem<string>>>) {
    && (forall i | 0 <= i < |docs| :: docs[i].docId == i)
    && Exact(Bags(lex, docs), inverted)
  }

  /** Over the whole index the postings of a document weigh ten times the tokens of its title and once
      the tokens of its content. */
  lemma IndexWeightsAddUp(lex: Lexicon, docs: seq<DocInfo>, inverted: map<string, seq<InvertedElem<string>>>, i: nat)
    requires Agrees(lex, docs, inverted) && i < |docs|
    ensures Total(inverted.Keys, w => WeightFor(ListOf(inverted, w), i)) ==
            10 * |lex.Tokens(docs[i].title)| + |lex.Tokens(docs[i].content)|
  {
    PostedWeightsAddUp(Bags(lex, docs), inverted, i);
  }

  // ---------- Documents from lines ----------

  /** BuildForwardIndex reads the first three fields of a line. */
  ghost predicate WellFormed(line: string) {
    |Split(line, HtmlParser.SEP)| >= 3
  }

  ghost predicate AllWellFormed(lines: seq<string>) {
    forall i | 0 <= i < |lines| :: WellFormed(lines[i])
  }

  ghost function LineDoc(line: string, id: nat): DocInfo
    requires WellFormed(line)
  {
    var fields := Split(line, HtmlParser.SEP);
    DocInfo(fields[0], fields[1], fields[2], id)
  }

  ghost function LineDocs(lines: seq<string>, first: nat): seq<DocInfo>
    requires AllWellFormed(lines)
  {
    seq(|lines|, i requires 0 <= i < |lines| => LineDoc(lines[i], first + i))
  }

  lemma LineDocsCons(line: string, rest: seq<string>, first: nat)
    requires AllWellFormed([line] + rest)
    ensures WellFormed(line) && AllWellFormed(rest)
    ensures LineDocs([line] + rest, first) == [LineDoc(line, first)] + LineDocs(rest, first + 1)
  {
    assert ([line] + rest)[0] == line;
    assert forall i | 0 <= i < |rest| :: rest[i] == ([line] + rest)[i + 1];
  }

  class Index {
    const jieba: JiebaUtil
    var forward: seq<DocInfo>
    var inverted: map<string, seq<InvertedElem<string>>>

    constructor (jieba: JiebaUtil)
      ensures this.jieba == jieba && forward == [] && inverted == map[] && Valid()
    {
      this.jieba := jieba;
      forward, inverted := [], map[];
    }

    ghost predicate Valid()
      reads this, jieba
    {
      Agrees(jieba.View(), forward, inverted)
    }

    ghost function View(): seq<Bag<string>>
      reads this, jieba
    {
      Bags(jieba.View(), forward)
    }

    method GetForwardIndex(docId: nat) returns (doc: Option<DocInfo>)
      ensures doc == if docId < |forward| then Some(forward[docId]) else None
    {
      if docId >= |forward| {
        return None;
      }
      return Some(forward[docId]);
    }

    method GetInvertedList(word: string) returns (list: Option<seq<InvertedElem<string>>>)
      requires Valid()
      ensures list == if Postings(View(), word) == [] then None else Some(Postings(View(), word))
    {
      assert WordExact(View(), inverted, word);
      if word !in inverted {
        return None;
      }
      return Some(inverted[word]);
    }

    method BuildForwardIndex(line: string) returns (doc: DocInfo)
      requires WellFormed(line)
      modifies this`forward
      ensures doc == LineDoc(line, |old(forward)|) && forward == old(forward) + [doc]
    {
      var results := Split(line, HtmlParser.SEP);
      doc := DocInfo(results[0], results[1], results[2], |forward|);
      forward := forward + [doc];
    }

    /** How often each word occurs in the title and in the content. */
    method CountWords(doc: DocInfo) returns (wordMap: map<string, WordCnt>)
      ensures Counted(wordMap, BagOf(jieba.View(), doc))
      ensures forall w :: w in wordMap <==> w in jieba.View().Words(doc.title) || w in jieba.View().Words(doc.content)
      ensures forall w | w in wordMap ::
                && wordMap[w].titleCnt == multiset(jieba.View().Words(doc.title))[w]
                && wordMap[w].contentCnt == multiset(jieba.View().Words(doc.content))[w]
    {
      var titleWords := jieba.CutStringHelper(doc.title);
      wordMap := CountTitleWords(titleWords);
      var contentWords := jieba.CutStringHelper(doc.content);
      wordMap := CountContentWords(wordMap, contentWords);
      CountsExact(LowerAll(titleWords), LowerAll(contentWords));
    }

    method CountTitleWords(words: seq<string>) returns (wordMap: map<string, WordCnt>)
      ensures wordMap == CountTitles(LowerAll(words))
    {
      wordMap := map[];
      ghost var lowered := LowerAll(words);
      for i := 0 to |words|
        invariant wordMap == CountTitles(lowered[..i])
      {
        var s := Lower(words[i]);
        assert lowered[..i + 1][..i] == lowered[..i];
        var cnt := if s in wordMap then wordMap[s] else WordCnt(0, 0);
        wordMap := wordMap[s := cnt.(titleCnt := cnt.titleCnt + 1)];
      }
      assert lowered[..|words|] == lowered;
    }

    method CountContentWords(titles: map<string, WordCnt>, words: seq<string>) returns (wordMap: map<string, WordCnt>)
      ensures wordMap == CountContents(titles, LowerAll(words))
    {
      wordMap := titles;
      ghost var lowered := LowerAll(words);
      for i := 0 to |words|
        invariant wordMap == CountContents(titles, lowered[..i])
      {
        var s := Lower(words[i]);
        assert lowered[..i + 1][..i] == lowered[..i];
        var cnt := if s in wordMap then wordMap[s] else WordCnt(0, 0);
        wordMap := wordMap[s := cnt.(contentCnt := cnt.contentCnt + 1)];
      }
      assert lowered[..|words|] == lowered;
    }

    /** Appends one posting for each word of a document, in any order of the words. */
    method AppendPostings(docId: nat, wordMap: map<string, WordCnt>)
      modifies this`inverted
      ensures Appended(old(inverted), wordMap, docId, {}, inverted)
    {
      var left := wordMap.Keys;
      while left != {}
        invariant left <= wordMap.Keys
        invariant Appended(old(inverted), wordMap, docId, left, inverted)
        decreases left
      {
        var word :| word in left;
        var item := InvertedElem(docId, word, X * wordMap[word].titleCnt + Y * wordMap[word].contentCnt);
        var list := if word in inverted then inverted[word] else [];
        AppendOne(old(inverted), wordMap, docId, left, inverted, word);
        inverted := inverted[word := list + [item]];
        left := left - {word};
      }
    }

    method BuildInvertedIndex(doc: DocInfo)
      requires forward != [] && doc == forward[|forward| - 1] && doc.docId == |forward| - 1
      requires Agrees(jieba.View(), forward[..|forward| - 1], inverted)
      modifies this`inverted
      ensures Valid()
    {
      var wordMap := CountWords(doc);
      ghost var known := Bags(jieba.View(), forward[..|forward| - 1]);
      AppendPostings(doc.docId, wordMap);
      NewDocumentExact(known, BagOf(jieba.View(), doc), wordMap, old(inverted), inverted);
      assert View() == known + [BagOf(jieba.View(), doc)];
      forall i | 0 <= i < |forward| ensures forward[i].docId == i {
        if i < |forward| - 1 { assert forward[..|forward| - 1][i] == forward[i]; }
      }
    }

    /** One turn of the loop in BuildIndex. */
    method IndexLine(line: string)
      requires Valid() && WellFormed(line)
      modifies this
      ensures Valid() && forward == old(forward) + [LineDoc(line, |old(forward)|)]
    {
      var doc := BuildForwardIndex(line);
      assert forward[..|forward| - 1] == old(forward);
      BuildInvertedIndex(doc);
    }

    /** Indexes the lines of the record file one after the other. */
    method BuildIndex(input: string)
      requires Valid() && AllWellFormed(Lines(input))
      modifies this
      ensures Valid() && forward == old(forward) + LineDocs(Lines(input), |old(forward)|)
    {
      var stream := input;
      ghost var lines, target := Lines(input), forward + LineDocs(Lines(input), |forward|);
      while true
        invariant Valid() && lines == Lines(stream) && StillToCome(forward, lines, target)
        decreases |stream|
      {
        var ok, line, rest := GetLine(stream);
        if !ok {
          break;
        }
        ComesNext(forward, line, Lines(rest), target);
        IndexLine(line);
        stream, lines := rest, Lines(rest);
      }
    }
  }

  /** Indexing the remaining lines completes the documents to `target`. */
  ghost predicate StillToCome(known: seq<DocInfo>, lines: seq<string>, target: seq<DocInfo>) {
    AllWellFormed(lines) && known + LineDocs(lines, |known|) == target
  }

  lemma ComesNext(known: seq<DocInfo>, line: string, rest: seq<string>, target: seq<DocInfo>)
    requires StillToCome(known, [line] + rest, target)
    ensures WellFormed(line) && StillToCome(known + [LineDoc(line, |known|)], rest, target)
  {
    LineDocsCons(line, rest, |known|);
    assert known + ([LineDoc(line, |known|)] + LineDocs(rest, |known| + 1)) ==
        (known + [LineDoc(line, |known|)]) + LineDocs(rest, |known| + 1);
  }
}
