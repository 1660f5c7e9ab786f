/** parser.cc: from HTML files to the record file. */
module HtmlParser {
  import opened Common
  import opened Text
  import opened Util

  const SRC_PATH := "data/input"
  const URL_HOST := "https://www.boost.org/"
  const URL_DIR := "doc/libs/1_80_0/doc/html"
  const URL_HEAD := URL_HOST + URL_DIR
  const SEP := '\U{0003}'

  datatype Doc = Doc(title: string, content: string, url: string)

  /** A file that EnumFile found: `text` is None when it cannot be opened. */
  datatype File = File(path: string, text: Option<string>)

  // ---------- ParseContent ----------

  datatype Status = Label | Content

  function NextStatus(s: Status, c: char): Status {
    match s
    case Label => if c == '>' then Content else Label
    case Content => if c == '<' then Label else Content
  }

  function Shown(s: Status, c: char): string {
    if s == Label || c == '<' then "" else if c == '\n' then " " else [c]
  }

  function StatusAfter(s: Status, text: string): Status
    decreases |text|
  {
    if text == [] then s else StatusAfter(NextStatus(s, text[0]), text[1..])
  }

  /** What is left of a text outside its tags, started in status s. */
  function Visible(s: Status, text: string): string
    decreases |text|
  {
    if text == [] then [] else Shown(s, text[0]) + Visible(NextStatus(s, text[0]), text[1..])
  }

  /** The tag stripper is compositional. */
  lemma {:induction false} VisibleConcat(s: Status, a: string, b: string)
    ensures StatusAfter(s, a + b) == StatusAfter(StatusAfter(s, a), b)
    ensures Visible(s, a + b) == Visible(s, a) + Visible(StatusAfter(s, a), b)
    decreases |a|
  {
    if a == [] {
      assert a + b == b;
    } else {
      assert (a + b)[1..] == a[1..] + b;
      VisibleConcat(NextStatus(s, a[0]), a[1..], b);
    }
  }

  method ParseContent(file: string) returns (content: string)
    ensures content == Visible(Label, file)
  {
    content := "";
    var s := Label;
    for i := 0 to |file|
      invariant content == Visible(Label, file[..i]) && s == StatusAfter(Label, file[..i])
    {
      var c := file[i];
      VisibleConcat(Label, file[..i], [c]);
      assert file[..i + 1] == file[..i] + [c];
      match s
      case Label =>
        if c == '>' { s := Content; }
      case Content =>
        if c == '<' {
          s := Label;
        } else {
          if c == '\n' { c := ' '; }
          content := content + [c];
        }
    }
    assert file[..|file|] == file;
  }

  function Spaced(text: string): string {
    if text == [] then [] else [if text[0] == '\n' then ' ' else text[0]] + Spaced(text[1..])
  }

  ghost predicate Subsequence(a: string, b: string) {
    a == [] || (b != [] && (Subsequence(a, b[1..]) || (a[0] == b[0] && Subsequence(a[1..], b[1..]))))
  }

  /** Nothing is invented: the result is a subsequence of the text, newlines being spaces, and
      no tag opener or newline is left. */
  lemma {:induction false} VisibleIsSubsequence(s: Status, text: string)
    ensures Subsequence(Visible(s, text), Spaced(text))
    ensures '<' !in Visible(s, text) && '\n' !in Visible(s, text)
    ensures forall c | c in Visible(s, text) :: c in text || c == ' '
    decreases |text|
  {
    if text != [] {
      var a, b := Visible(s, text), Spaced(text);
      VisibleIsSubsequence(NextStatus(s, text[0]), text[1..]);
      assert b[1..] == Spaced(text[1..]);
      if Shown(s, text[0]) == "" {
        assert a == Visible(NextStatus(s, text[0]), text[1..]);
      } else {
        assert a[1..] == Visible(NextStatus(s, text[0]), text[1..]) && a[0] == b[0];
      }
    }
  }

  lemma {:induction false} PlainTextIsVisible(text: string)
    requires '<' !in text && '\n' !in text
    ensures Visible(Content, text) == text && StatusAfter(Content, text) == Content
  {
    if text != [] { PlainTextIsVisible(text[1..]); }
  }

  /** Whatever the status before a complete opening tag, it is Content afterwards. */
  lemma TagEndsInContent(s: Status, name: string)
    requires '<' !in name && '>' !in name
    ensures StatusAfter(s, "<" + name + ">") == Content && Visible(s, "<" + name + ">") == ""
  {
    VisibleConcat(s, "<" + name, ">");
    VisibleConcat(s, "<", name);
    assert ("<")[1..] == "";
    InsideLabel(name);
  }

  lemma {:induction false} InsideLabel(name: string)
    requires '>' !in name
    ensures StatusAfter(Label, name) == Label && Visible(Label, name) == ""
  {
    if name != [] { InsideLabel(name[1..]); }
  }

  /** Every other character outside the tags is kept, and a newline becomes a space. */
  lemma CharacterShows(c: char)
    requires c != '<'
    ensures Visible(Content, [c]) == [if c == '\n' then ' ' else c] && StatusAfter(Content, [c]) == Content
    ensures Visible(Label, [c]) == "" && StatusAfter(Label, [c]) == if c == '>' then Content else Label
  {
  }

  // ---------- ParseTitle ----------

  const OPEN_TITLE := "<title>"
  const CLOSE_TITLE := "</title>"

  /** The title lies between the first opening tag and the first closing tag. */
  ghost predicate TitleAt(file: string, title: string, begin: nat, end: nat) {
    && FirstAt(file, OPEN_TITLE, begin) && FirstAt(file, CLOSE_TITLE, end)
    && begin + |OPEN_TITLE| <= end <= |file| && title == file[begin + |OPEN_TITLE|..end]
  }

  ghost predicate IsTitle(file: string, title: string) {
    exists begin: nat, end: nat :: TitleAt(file, title, begin, end)
  }

  ghost function Title(file: string): Option<string> {
    if title: string :| IsTitle(file, title) then Some(title) else None
  }

  lemma OccursFrom(s: string, p: string, i: nat)
    requires OccursAt(s, p, i) && |p| > 1
    ensures s[i] == p[0] && s[i + 1] == p[1]
  {
    assert s[i..i + |p|][0] == p[0] && s[i..i + |p|][1] == p[1];
  }

  /** The text between the tags is the title when it and what precedes hold no tag opener. */
  lemma TaggedTitle(before: string, title: string, after: string)
    requires '<' !in before && '<' !in title
    ensures IsTitle(before + "<title>" + title + "</title>" + after, title)
  {
    var file := before + "<title>" + title + "</title>" + after;
    var begin, end := |before|, |before| + 7 + |title|;
    assert file[begin..begin + 7] == "<title>" && file[begin + 7..end] == title && file[end..end + 8] == "</title>";
    assert forall i | 0 <= i < end && file[i] == '<' :: i == begin;
    assert file[begin + 1] == file[begin..begin + 7][1] == 't';
    forall i: nat | i < end && OccursAt(file, OPEN_TITLE, i) ensures i == begin { OccursFrom(file, OPEN_TITLE, i); }
    forall i: nat | i < end ensures !OccursAt(file, CLOSE_TITLE, i) {
      if OccursAt(file, CLOSE_TITLE, i) { OccursFrom(file, CLOSE_TITLE, i); }
    }
    assert TitleAt(file, title, begin, end);
  }

  method ParseTitle(file: string) returns (title: Option<string>)
    ensures title == Title(file)
  {
    title := None;
    var begin := Find(file, OPEN_TITLE);
    if begin.None? {
      return;
    }
    var end := Find(file, CLOSE_TITLE);
    if end.None? {
      return;
    }
    var from := begin.value + |OPEN_TITLE|;
    if from > end.value {
      return;
    }
    title := Some(file[from..end.value]);
    assert TitleAt(file, title.value, begin.value, end.value);
    assert IsTitle(file, title.value);
  }

  // ---------- ParseUrl, ParseHtml ----------

  /** Every path that the directory walk yields starts with SRC_PATH. */
  function Url(path: string): string
    requires |path| >= |SRC_PATH|
  {
    URL_HEAD + path[|SRC_PATH|..]
  }

  /** The address of a file is the documentation's address and the rest of the file's path. */
  lemma UrlOf(rest: string)
    ensures Url("data/input" + rest) == "https://www.boost.org/" + "doc/libs/1_80_0/doc/html" + rest
  {
  }

  ghost predicate Enumerated(files: seq<File>) {
    forall f | f in files :: |f.path| >= |SRC_PATH|
  }

  /** What becomes of one file: nothing if it is unreadable or has no title. */
  ghost function Parsed(f: File): seq<Doc>
    requires |f.path| >= |SRC_PATH|
  {
    if f.text.None? then [] else
    var text := Without(f.text.value, '\n');
    match Title(text)
    case None => []
    case Some(title) => [Doc(title, Visible(Label, text), Url(f.path))]
  }

  ghost function ParsedAll(files: seq<File>): seq<Doc>
    requires Enumerated(files)
  {
    if files == [] then [] else ParsedAll(files[..|files| - 1]) + Parsed(files[|files| - 1])
  }

  lemma ParsedAllSnoc(files: seq<File>, f: File)
    requires Enumerated(files) && |f.path| >= |SRC_PATH|
    ensures Enumerated(files + [f]) && ParsedAll(files + [f]) == ParsedAll(files) + Parsed(f)
  {
    assert (files + [f])[..|files|] == files;
  }

  lemma Regroup<T>(a: seq<T>, b: seq<T>, c: seq<T>)
    ensures (a + b) + c == a + (b + c)
  {
  }

  lemma {:induction false} ParsedAllConcat(a: seq<File>, b: seq<File>)
    requires Enumerated(a) && Enumerated(b)
    ensures Enumerated(a + b) && ParsedAll(a + b) == ParsedAll(a) + ParsedAll(b)
    decreases |b|
  {
    if b == [] {
      assert a + b == a;
    } else {
      var front, last := b[..|b| - 1], b[|b| - 1];
      assert b == front + [last];
      ParsedAllConcat(a, front);
      ParsedAllSnoc(a + front, last);
      Regroup(a, front, [last]);
      Regroup(ParsedAll(a), ParsedAll(front), Parsed(last));
    }
  }

  /** The title that a file shows, its newlines being dropped. */
  ghost predicate HasTitle(f: File, title: string) {
    f.text.Some? && IsTitle(Without(f.text.value, '\n'), title)
  }

  /** One file gives one document if it can be read and has a title, and none otherwise. */
  lemma ParsedOne(f: File)
    requires |f.path| >= |SRC_PATH|
    ensures Enumerated([f])
    ensures (forall title :: !HasTitle(f, title)) ==> ParsedAll([f]) == []
    ensures forall title | HasTitle(f, title) ::
              ParsedAll([f]) == [Doc(title, Visible(Label, Without(f.text.value, '\n')), Url(f.path))]
  {
    assert [f][..0] == [];
    forall title | HasTitle(f, title)
      ensures ParsedAll([f]) == [Doc(title, Visible(Label, Without(f.text.value, '\n')), Url(f.path))]
    {
      TitleFound(Without(f.text.value, '\n'), title);
    }
    if f.text.Some? && Title(Without(f.text.value, '\n')).Some? {
      TitleIsTitle(Without(f.text.value, '\n'));
      assert HasTitle(f, Title(Without(f.text.value, '\n')).value);
    }
  }

  lemma TitleIsTitle(text: string)
    requires Title(text).Some?
    ensures IsTitle(text, Title(text).value)
  {
  }

  lemma TitleFound(text: string, title: string)
    requires IsTitle(text, title)
    ensures Title(text) == Some(title)
  {
    var b: nat, e: nat :| TitleAt(text, title, b, e);
    var c: nat, f: nat :| TitleAt(text, Title(text).value, c, f);
  }

  /** Every readable file with a title is among the documents. */
  lemma TitledFileIsParsed(files: seq<File>, f: File, title: string)
    requires Enumerated(files) && f in files && HasTitle(f, title)
    ensures Doc(title, Visible(Label, Without(f.text.value, '\n')), Url(f.path)) in ParsedAll(files)
  {
    var k :| 0 <= k < |files| && files[k] == f;
    assert files == files[..k] + [f] + files[k + 1..];
    ParsedOne(f);
    ParsedAllConcat(files[..k], [f]);
    ParsedAllConcat(files[..k] + [f], files[k + 1..]);
  }

  method ParseHtml(files: seq<File>) returns (docs: seq<Doc>)
    requires Enumerated(files)
    ensures docs == ParsedAll(files)
    ensures forall f, title | f in files && HasTitle(f, title) ::
              Doc(title, Visible(Label, Without(f.text.value, '\n')), Url(f.path)) in docs
  {
    docs := [];
    for i := 0 to |files|
      invariant docs == ParsedAll(files[..i])
    {
      assert files[..i + 1][..i] == files[..i];
      var f := files[i];
      if f.text.None? {
        continue;
      }
      var text := ReadFile(f.text.value);
      var title := ParseTitle(text);
      if title.None? {
        continue;
      }
      var content := ParseContent(text);
      docs := docs + [Doc(title.value, content, Url(f.path))];
    }
    assert files[..|files|] == files;
    forall f, title | f in files && HasTitle(f, title)
      ensures Doc(title, Visible(Label, Without(f.text.value, '\n')), Url(f.path)) in docs
    {
      TitledFileIsParsed(files, f, title);
    }
  }

  // ---------- SaveHtml ----------

  function Record(d: Doc): string {
    d.title + [SEP] + d.content + [SEP] + d.url
  }

  function Serialised(docs: seq<Doc>): string {
    if docs == [] then [] else Serialised(docs[..|docs| - 1]) + (Record(docs[|docs| - 1]) + "\n")
  }

  /** The bytes of the record file: three fields, the separators 3 and a newline. */
  lemma RecordBytes(docs: seq<Doc>, d: Doc)
    ensures Serialised([]) == []
    ensures Serialised(docs + [d]) ==
            Serialised(docs) + d.title + [3 as char] + d.content + [3 as char] + d.url + ['\n']
  {
    assert (docs + [d])[..|docs|] == docs;
  }

  method SaveHtml(docs: seq<Doc>) returns (out: string)
    ensures out == Serialised(docs)
  {
    out := "";
    for i := 0 to |docs|
      invariant out == Serialised(docs[..i])
    {
      var line := docs[i].title;
      line := line + [SEP];
      line := line + docs[i].content;
      line := line + [SEP];
      line := line + docs[i].url;
      line := line + "\n";
      assert docs[..i + 1][..i] == docs[..i];
      out := out + line;
    }
    assert docs[..|docs|] == docs;
  }
}
