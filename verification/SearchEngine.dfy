/** The four stages together: from HTML files to the answer of a query. */
module SearchEngine {
  import opened Common
  import opened Text
  import opened Util
  import opened HtmlParser
  import opened PostingLists
  import opened InvertedIndex
  import opened RecordFile
  import Searcher

  /** The title contains no tag of its own. */
  ghost predicate PlainTitle(f: File) {
    f.text.Some? ==> match Title(Without(f.text.value, '\n')) case None => true case Some(t) => '<' !in t
  }

  ghost predicate PlainTitles(files: seq<File>) {
    forall i | 0 <= i < |files| :: PlainTitle(files[i])
  }

  /** A plain title shows up in the stripped content in one piece. */
  lemma ParsedTitleInContent(f: File)
    requires |f.path| >= |SRC_PATH| && PlainTitle(f)
    ensures forall d | d in Parsed(f) :: Infix(d.title, d.content)
  {
    if f.text.Some? {
      var text := Without(f.text.value, '\n');
      WithoutIsFree(f.text.value, '\n');
      if Title(text).Some? {
        var title := Title(text).value;
        TitleFree(text, title, '\n');
        PlainTextIsVisible(title);
        var before, after := TitleShows(text, title);
        assert OccursAt(title, title, 0);
        InfixPart(title, before, title, after);
      }
    }
  }

  lemma {:induction false} ParsedAllTitles(files: seq<File>)
    requires Enumerated(files) && PlainTitles(files)
    ensures forall d | d in ParsedAll(files) :: Infix(d.title, d.content)
  {
    if files != [] {
      var n := |files| - 1;
      assert forall i | 0 <= i < n :: files[..n][i] == files[i];
      ParsedAllTitles(files[..n]);
      ParsedTitleInContent(files[n]);
    }
  }

  /** Every word that is indexed for a document occurs in its content, case aside. */
  lemma WordInContent(lex: Lexicon, d: DocInfo, w: string)
    requires CutsPieces(lex) && Infix(d.title, d.content) && Searcher.Occurs(lex, d, w)
    ensures Infix(Lower(w), Lower(d.content))
  {
    var text := if w in lex.Words(d.title) then d.title else d.content;
    var tok := WordSource(lex, text, w);
    if text == d.title { InfixTrans(tok, d.title, d.content); }
    LowerInfix(tok, d.content);
    LowerTwice(tok);
  }

  lemma WordSource(lex: Lexicon, text: string, w: string) returns (tok: string)
    requires CutsPieces(lex) && w in lex.Words(text)
    ensures Infix(tok, text) && w == Lower(tok)
  {
    var tokens := lex.Tokens(text);
    var k :| 0 <= k < |tokens| && LowerAll(tokens)[k] == w;
    tok := tokens[k];
    KeepMembers(lex.cut(text), lex.stop);
    assert tok in lex.cut(text);
  }

  lemma InfixTrans(p: string, q: string, s: string)
    requires Infix(p, q) && Infix(q, s)
    ensures Infix(p, s)
  {
    var i: nat :| OccursAt(s, q, i);
    assert s == s[..i] + q + s[i + |q|..];
    InfixPart(p, s[..i], q, s[i + |q|..]);
  }

  /** The item carries a snippet for the first query word that occurs in its document. */
  ghost predicate SnippetShown(lex: Lexicon, docs: seq<DocInfo>, query: seq<string>, item: Searcher.Item) {
    && item.id < |docs|
    && exists k: nat :: Searcher.FirstOccurs(lex, docs[item.id], query, k) &&
                        Searcher.Snippet(docs[item.id].content, query[k], item.desc)
  }

  lemma EveryHitHasSnippet(lex: Lexicon, docs: seq<DocInfo>, query: seq<string>, item: Searcher.Item)
    requires CutsPieces(lex) && Searcher.ItemOk(lex, docs, query, item)
    requires Infix(docs[item.id].title, docs[item.id].content) && docs[item.id].content != ""
    ensures SnippetShown(lex, docs, query, item)
  {
    var d := docs[item.id];
    var k: nat :| Searcher.FirstOccurs(lex, d, query, k) && Searcher.Describes(d.content, query[k], item.desc);
    WordInContent(lex, d, query[k]);
    Searcher.FoundWordHasSnippet(d.content, query[k], item.desc);
  }

  /** What is left of a readable file when its newlines and its tags are dropped. */
  ghost function VisibleText(f: File): string
    requires f.text.Some?
  {
    Visible(Label, Without(f.text.value, '\n'))
  }

  /** Some item of the answer shows the file: its title, its address and its weight, ten for each
      occurrence of a query word in the title and one for each in the visible text. */
  ghost predicate Found(lex: Lexicon, f: File, title: string, query: seq<string>, items: seq<Searcher.Item>)
    requires f.text.Some? && |f.path| >= |SRC_PATH|
  {
    exists k ::
      && 0 <= k < |items| && items[k].title == title && items[k].url == Url(f.path)
      && items[k].weight == Searcher.QueryWeight(lex, DocInfo(title, VisibleText(f), Url(f.path), items[k].id), query)
  }

  /** Every readable file with a title in which a query word occurs is in the answer. */
  lemma FileIsFound(files: seq<File>, f: File, title: string, lex: Lexicon, query: seq<string>, w: string,
                    items: seq<Searcher.Item>)
    requires Enumerated(files) && f in files && HasTitle(f, title)
    requires w in query && w in lex.Words(title) + lex.Words(VisibleText(f))
    requires Searcher.Answers(lex, WithIds(ParsedAll(files)), query, items)
    ensures Found(lex, f, title, query, items)
  {
    TitledFileIsParsed(files, f, title);
    var docs := WithIds(ParsedAll(files));
    var i :| 0 <= i < |docs| && ParsedAll(files)[i] == Doc(title, VisibleText(f), Url(f.path));
    assert Searcher.Occurs(lex, docs[i], w) && Searcher.Matches(lex, docs[i], query);
    assert Searcher.Shown(items, i);
    var k :| 0 <= k < |items| && items[k].id == i;
    assert Searcher.ItemOk(lex, docs, query, items[k]);
  }

  /** Parse the files, save and index the records, answer the query. If the documents survive the
      record format the answer is the ranked brute-force scan over them; and if moreover titles are
      plain and tokens are pieces of their text, every hit comes with a snippet of a query word. */
  method Answer(files: seq<File>, jieba: JiebaUtil, query: string) returns (items: seq<Searcher.Item>)
    requires Enumerated(files) && AllClean(ParsedAll(files))
    ensures Searcher.Answers(jieba.View(), WithIds(ParsedAll(files)), jieba.View().Words(query), items)
    ensures forall f, title, w | f in files && HasTitle(f, title) && w in jieba.View().Words(query) &&
                                 w in jieba.View().Words(title) + jieba.View().Words(VisibleText(f)) ::
              Found(jieba.View(), f, title, jieba.View().Words(query), items)
    ensures PlainTitles(files) && CutsPieces(jieba.View()) ==>
              forall k | 0 <= k < |items| ::
                SnippetShown(jieba.View(), WithIds(ParsedAll(files)), jieba.View().Words(query), items[k])
  {
    var docs := ParseHtml(files);
    var saved := SaveHtml(docs);
    RoundTrip(docs);
    var index := new Index(jieba);
    index.BuildIndex(saved);
    assert index.forward == WithIds(docs);
    var searcher := new Searcher.Searcher(index);
    items := searcher.Search(query);
    forall f, title, w | f in files && HasTitle(f, title) && w in jieba.View().Words(query) &&
                         w in jieba.View().Words(title) + jieba.View().Words(VisibleText(f))
      ensures Found(jieba.View(), f, title, jieba.View().Words(query), items)
    {
      FileIsFound(files, f, title, jieba.View(), jieba.View().Words(query), w, items);
    }
    if PlainTitles(files) && CutsPieces(jieba.View()) {
      AnswerHasSnippets(files, jieba.View(), jieba.View().Words(query), items);
    }
  }

  lemma AnswerHasSnippets(files: seq<File>, lex: Lexicon, query: seq<string>, items: seq<Searcher.Item>)
    requires Enumerated(files) && AllClean(ParsedAll(files)) && PlainTitles(files) && CutsPieces(lex)
    requires Searcher.Answers(lex, WithIds(ParsedAll(files)), query, items)
    ensures forall k | 0 <= k < |items| :: SnippetShown(lex, WithIds(ParsedAll(files)), query, items[k])
  {
    var docs := ParsedAll(files);
    ParsedAllTitles(files);
    forall k | 0 <= k < |items| ensures SnippetShown(lex, WithIds(docs), query, items[k]) {
      assert Searcher.ItemOk(lex, WithIds(docs), query, items[k]);
      assert docs[items[k].id] in docs && Clean(docs[items[k].id]);
      EveryHitHasSnippet(lex, WithIds(docs), query, items[k]);
    }
  }
}
