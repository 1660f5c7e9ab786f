/** The record file between parser.cc, which writes it, and index.hpp, which reads it back. */
module RecordFile {
  import opened Common
  import opened Text
  import opened Util
  import opened HtmlParser
  import opened InvertedIndex

  /** What a document must look like to survive the record format. */
  ghost predicate Clean(d: Doc) {
    && SEP !in d.title && SEP !in d.content && SEP !in d.url
    && '\n' !in d.title && '\n' !in d.content && '\n' !in d.url
    && d.content != ""
  }

  ghost predicate AllClean(docs: seq<Doc>) {
    forall i | 0 <= i < |docs| :: Clean(docs[i])
  }

  ghost function WithIds(docs: seq<Doc>): seq<DocInfo> {
    seq(|docs|, i requires 0 <= i < |docs| => DocInfo(docs[i].title, docs[i].content, docs[i].url, i))
  }

  /** Indexing the saved file gives back the documents, in order, numbered from 0. */
  ghost predicate ReadsBack(docs: seq<Doc>) {
    && AllWellFormed(Lines(Serialised(docs)))
    && LineDocs(Lines(Serialised(docs)), 0) == WithIds(docs)
  }

  // ---------- One record ----------

  /** The compressing split undoes the record of a document exactly when no field contains the
      separator and the content is not empty. */
  lemma RecordFields(d: Doc)
    ensures var fields := Split(Record(d), SEP);
            (SEP !in d.title && SEP !in d.content && SEP !in d.url && d.content != "")
            <==> (|fields| >= 3 && fields[0] == d.title && fields[1] == d.content && fields[2] == d.url)
  {
    var fields := Split(Record(d), SEP);
    if SEP !in d.title && SEP !in d.content && SEP !in d.url {
      if d.content == "" {
        assert Record(d) == d.title + [SEP] + ([SEP] + d.url);
        SplitDouble(d.title, d.url, SEP);
      } else {
        assert Record(d) == d.title + [SEP] + (d.content + [SEP] + d.url);
        SplitCons(d.title, d.content + [SEP] + d.url, SEP);
        SplitCons(d.content, d.url, SEP);
      }
      SplitOne(d.url, SEP);
    } else if |fields| >= 3 {
      assert fields[0] in fields && fields[1] in fields && fields[2] in fields;
    }
  }

  // ---------- The whole file ----------

  lemma Regroup(a: string, b: string, c: string)
    ensures (a + b) + c == a + (b + c)
  {
  }

  lemma SerialisedLast(docs: seq<Doc>, d: Doc)
    ensures Serialised(docs + [d]) == Serialised(docs) + (Record(d) + "\n")
  {
    assert (docs + [d])[..|docs|] == docs;
  }

  lemma {:induction false} SerialisedCons(d: Doc, docs: seq<Doc>)
    ensures Serialised([d] + docs) == Record(d) + "\n" + Serialised(docs)
    decreases |docs|
  {
    if docs == [] {
      SerialisedLast([], d);
      assert [d] + docs == [] + [d];
    } else {
      var n := |docs| - 1;
      var front, last := docs[..n], docs[n];
      SerialisedCons(d, front);
      SerialisedLast([d] + front, last);
      SerialisedLast(front, last);
      assert docs == front + [last] && [d] + docs == ([d] + front) + [last];
      Regroup(Record(d) + "\n", Serialised(front), Record(last) + "\n");
    }
  }

  ghost function Records(docs: seq<Doc>): seq<string> {
    seq(|docs|, i requires 0 <= i < |docs| => Record(docs[i]))
  }

  lemma {:induction false} SavedLines(docs: seq<Doc>)
    requires forall i | 0 <= i < |docs| :: '\n' !in Record(docs[i])
    ensures Lines(Serialised(docs)) == Records(docs)
    decreases |docs|
  {
    if docs != [] {
      SavedLines(docs[1..]);
      assert docs == [docs[0]] + docs[1..];
      SerialisedCons(docs[0], docs[1..]);
      FirstRecord(Record(docs[0]), Serialised(docs), Serialised(docs[1..]));
      RecordsCons(docs);
    }
  }

  lemma FirstRecord(record: string, saved: string, rest: string)
    requires saved == record + "\n" + rest && '\n' !in record
    ensures Lines(saved) == [record] + Lines(rest)
  {
    LinesCons(record, rest);
  }

  lemma RecordsCons(docs: seq<Doc>)
    requires docs != []
    ensures Records(docs) == [Record(docs[0])] + Records(docs[1..])
  {
  }

  lemma CountLine(line: string, rest: string)
    requires '\n' !in line
    ensures Count(line + "\n" + rest, '\n') == 1 + Count(rest, '\n')
  {
    var tail := "\n" + rest;
    assert line + "\n" + rest == line + tail && tail[1..] == rest && tail[0] == '\n';
    CountConcat(line, tail, '\n');
    CountZero(line, '\n');
  }

  lemma FirstNewline(s: string) returns (e: nat)
    requires s != "" && s[|s| - 1] == '\n'
    ensures e < |s| && '\n' !in s[..e] && s == s[..e] + "\n" + s[e + 1..]
  {
    e := Until(s, '\n', 0);
    assert e < |s| by { assert forall k | 0 <= k < e :: s[0..e][k] == s[k]; }
    assert s[..e] == s[0..e];
  }

  /** A text that ends with a newline has as many lines as newlines. */
  lemma {:induction false} LinesCounted(s: string)
    requires s == "" || s[|s| - 1] == '\n'
    ensures |Lines(s)| == Count(s, '\n')
    decreases |s|
  {
    if s != "" {
      var e := FirstNewline(s);
      var line, rest := s[..e], s[e + 1..];
      LinesCons(line, rest);
      CountLine(line, rest);
      LinesCounted(rest);
    }
  }

  lemma {:induction false} SavedCount(docs: seq<Doc>)
    ensures Serialised(docs) == "" || Serialised(docs)[|Serialised(docs)| - 1] == '\n'
    ensures Count(Serialised(docs), '\n') >= |docs|
    ensures Count(Serialised(docs), '\n') == |docs| ==> forall i | 0 <= i < |docs| :: '\n' !in Record(docs[i])
  {
    if docs != [] {
      var n := |docs| - 1;
      var last := Record(docs[n]);
      SavedCount(docs[..n]);
      CountConcat(Serialised(docs[..n]), last + "\n", '\n');
      CountConcat(last, "\n", '\n');
      assert ("\n")[1..] == "";
      CountZero(last, '\n');
      assert forall i | 0 <= i < n :: docs[..n][i] == docs[i];
    }
  }

  lemma RecordNewlines(d: Doc)
    ensures '\n' !in Record(d) <==> '\n' !in d.title && '\n' !in d.content && '\n' !in d.url
  {
    assert SEP != '\n';
  }

  /** Saving and indexing gives a list of documents back exactly when every document is clean. */
  lemma RoundTrip(docs: seq<Doc>)
    ensures ReadsBack(docs) <==> AllClean(docs)
  {
    if AllClean(docs) {
      forall i | 0 <= i < |docs| ensures '\n' !in Record(docs[i]) { RecordNewlines(docs[i]); }
      SavedLines(docs);
      CleanReadsBack(docs);
    }
    if ReadsBack(docs) {
      SavedCount(docs);
      LinesCounted(Serialised(docs));
      assert |LineDocs(Lines(Serialised(docs)), 0)| == |docs|;
      SavedLines(docs);
      ReadBackClean(docs);
    }
  }

  lemma CleanReadsBack(docs: seq<Doc>)
    requires AllClean(docs) && Lines(Serialised(docs)) == Records(docs)
    ensures ReadsBack(docs)
  {
    forall i | 0 <= i < |docs|
      ensures WellFormed(Records(docs)[i]) && LineDoc(Records(docs)[i], i) == WithIds(docs)[i]
    {
      RecordFields(docs[i]);
    }
  }

  lemma ReadBackClean(docs: seq<Doc>)
    requires ReadsBack(docs) && Lines(Serialised(docs)) == Records(docs)
    requires forall i | 0 <= i < |docs| :: '\n' !in Record(docs[i])
    ensures AllClean(docs)
  {
    forall i | 0 <= i < |docs| ensures Clean(docs[i]) {
      RecordFields(docs[i]);
      RecordNewlines(docs[i]);
      assert WellFormed(Records(docs)[i]) && LineDocs(Records(docs), 0)[i] == WithIds(docs)[i];
    }
  }

  // ---------- What the parser guarantees ----------

  /** The parser's part: no separator in the file or its path, no newline in the path, and a
      title that shows some text before its first tag. */
  ghost predicate GoodFile(f: File) {
    && |f.path| >= |SRC_PATH| && SEP !in f.path && '\n' !in f.path
    && (f.text.Some? ==> SEP !in f.text.value && ShowsTitle(Without(f.text.value, '\n')))
  }

  ghost predicate ShowsTitle(text: string) {
    match Title(text)
    case None => true
    case Some(title) => title != "" && title[0] != '<'
  }

  lemma SlicesFree(s: string, c: char, i: nat, j: nat)
    requires c !in s && i <= j <= |s|
    ensures c !in s[i..j]
  {
  }

  lemma TitleSplits(text: string, title: string) returns (before: string, after: string)
    requires IsTitle(text, title)
    ensures text == before + OPEN_TITLE + title + after
  {
    var b: nat, e: nat :| TitleAt(text, title, b, e);
    before, after := text[..b], text[e..];
    assert text == text[..b] + text[b..b + |OPEN_TITLE|] + text[b + |OPEN_TITLE|..e] + text[e..];
  }

  /** After the opening tag of the title the stripper shows text, whatever came before. */
  lemma TitleShows(text: string, title: string) returns (before: string, after: string)
    requires IsTitle(text, title)
    ensures Visible(Label, text) == before + Visible(Content, title) + after
  {
    var b, a := TitleSplits(text, title);
    assert OPEN_TITLE == "<" + "title" + ">";
    TagEndsInContent(StatusAfter(Label, b), "title");
    VisibleAround(b, OPEN_TITLE, title, a);
    before, after := Visible(Label, b), Visible(StatusAfter(Content, title), a);
  }

  lemma VisibleAround(b: string, tag: string, t: string, a: string)
    requires StatusAfter(StatusAfter(Label, b), tag) == Content && Visible(StatusAfter(Label, b), tag) == ""
    ensures Visible(Label, b + tag + t + a) == Visible(Label, b) + Visible(Content, t) +
        Visible(StatusAfter(Content, t), a)
  {
    VisibleConcat(Label, b + tag + t, a);
    VisibleBefore(b, tag, t);
  }

  lemma VisibleBefore(b: string, tag: string, t: string)
    requires StatusAfter(StatusAfter(Label, b), tag) == Content && Visible(StatusAfter(Label, b), tag) == ""
    ensures StatusAfter(Label, b + tag + t) == StatusAfter(Content, t)
    ensures Visible(Label, b + tag + t) == Visible(Label, b) + Visible(Content, t)
  {
    var before := b + tag;
    VisibleConcat(Label, before, t);
    VisibleConcat(Label, b, tag);
    var shown := Visible(Label, b);
    assert shown + [] == shown;
  }

  lemma UrlHostFree(c: char)
    requires c < '-'
    ensures c !in URL_HOST
  {
    assert URL_HOST == "https://www" + ".boost.org/";
    assert c !in "https://www";
    assert c !in ".boost.org/";
  }

  lemma UrlDirFree(c: char)
    requires c < '-'
    ensures c !in URL_DIR
  {
    assert URL_DIR == "doc/libs/1_" + "80_0/doc/html";
    assert c !in "doc/libs/1_";
    assert c !in "80_0/doc/html";
  }

  lemma UrlFree(path: string, c: char)
    requires |path| >= |SRC_PATH| && c !in path && (c == SEP || c == '\n')
    ensures c !in Url(path)
  {
    UrlHostFree(c);
    UrlDirFree(c);
    assert URL_HEAD == URL_HOST + URL_DIR;
    SlicesFree(path, c, |SRC_PATH|, |path|);
  }

  lemma TitleFree(text: string, title: string, c: char)
    requires IsTitle(text, title) && c !in text
    ensures c !in title
  {
    var before, after := TitleSplits(text, title);
    assert forall d | d in title :: d in text;
  }

  lemma TitleGivesContent(text: string, title: string)
    requires IsTitle(text, title) && title != "" && title[0] != '<'
    ensures Visible(Label, text) != ""
  {
    var before, after := TitleShows(text, title);
    assert Shown(Content, title[0]) != "";
  }

  lemma ParsedClean(f: File)
    requires GoodFile(f)
    ensures forall d | d in Parsed(f) :: Clean(d)
  {
    if f.text.Some? {
      var text := Without(f.text.value, '\n');
      WithoutIsFree(f.text.value, '\n');
      if Title(text).Some? {
        var title := Title(text).value;
        TitleFree(text, title, SEP);
        TitleFree(text, title, '\n');
        VisibleIsSubsequence(Label, text);
        TitleGivesContent(text, title);
        UrlFree(f.path, SEP);
        UrlFree(f.path, '\n');
      }
    }
  }

  /** The parser discharges the conditions of the round trip. */
  lemma {:induction false} ParsedAllClean(files: seq<File>)
    requires Enumerated(files) && forall i | 0 <= i < |files| :: GoodFile(files[i])
    ensures AllClean(ParsedAll(files))
  {
    if files != [] {
      var n := |files| - 1;
      assert forall i | 0 <= i < n :: files[..n][i] == files[i];
      ParsedAllClean(files[..n]);
      ParsedClean(files[n]);
    }
  }

  // ---------- A document that is lost ----------

  lemma EmptyTitle(text: string)
    requires text == OPEN_TITLE + CLOSE_TITLE
    ensures Title(text) == Some("") && Visible(Label, text) == ""
  {
    assert OPEN_TITLE == "<" + "title" + ">" && CLOSE_TITLE == "<" + "/title" + ">";
    assert forall k: nat | k < |OPEN_TITLE| :: text[k] == OPEN_TITLE[k];
    assert text[..|OPEN_TITLE|] == OPEN_TITLE && text[|OPEN_TITLE|..] == CLOSE_TITLE;
    forall k: nat | k < |OPEN_TITLE| ensures !OccursAt(text, CLOSE_TITLE, k) { OccursHead(text, CLOSE_TITLE, k); }
    assert TitleAt(text, "", 0, |OPEN_TITLE|);
    assert IsTitle(text, "");
    TitleFound(text, "");
    TagEndsInContent(Label, "title");
    TagEndsInContent(Content, "/title");
    VisibleConcat(Label, OPEN_TITLE, CLOSE_TITLE);
  }

  lemma OccursHead(s: string, p: string, i: nat)
    requires |p| > 1
    ensures OccursAt(s, p, i) ==> s[i] == p[0] && s[i + 1] == p[1]
  {
    if OccursAt(s, p, i) { assert s[i..i + |p|][0] == s[i] && s[i..i + |p|][1] == s[i + 1]; }
  }

  lemma EmptyContent(f: File, text: string)
    requires |f.path| >= |SRC_PATH| && f.text == Some(text) && '\n' !in text
    requires Title(text) == Some("") && Visible(Label, text) == ""
    ensures ParsedAll([f]) == [Doc("", "", Url(f.path))] && !ReadsBack(ParsedAll([f]))
  {
    WithoutNothing(text, '\n');
    assert [f][..0] == [];
    assert !Clean(ParsedAll([f])[0]);
    RoundTrip(ParsedAll([f]));
  }

  /** The parser does produce documents that do not survive: a file with an empty title and no text
      becomes one with an empty content. */
  lemma EmptyContentIsLost(f: File)
    requires |f.path| >= |SRC_PATH| && f.text == Some(OPEN_TITLE + CLOSE_TITLE)
    ensures ParsedAll([f]) == [Doc("", "", Url(f.path))] && !ReadsBack(ParsedAll([f]))
  {
    assert '\n' !in OPEN_TITLE && '\n' !in CLOSE_TITLE;
    EmptyTitle(f.text.value);
    EmptyContent(f, f.text.value);
  }
}
