/** util.hpp: reading a file, splitting a record, cutting a text into words. */
module Util {
  import opened Common
  import opened Text

  // ---------- FileUtil ----------

  /** What is left of the stream after its first line. */
  function AfterLine(stream: string): string {
    var e := Until(stream, '\n', 0);
    if e < |stream| then stream[e + 1..] else ""
  }

  /** getline: fails at the end of the stream, else takes the first line off it. */
  method GetLine(stream: string) returns (ok: bool, line: string, rest: string)
    ensures ok == (stream != "")
    ensures ok ==> |rest| < |stream| && '\n' !in line && Lines(stream) == [line] + Lines(rest)
    ensures ok ==> Without(stream, '\n') == line + Without(rest, '\n')
  {
    if stream == "" {
      return false, "", "";
    }
    FirstLine(stream);
    return true, stream[..Until(stream, '\n', 0)], AfterLine(stream);
  }

  lemma FirstLine(stream: string)
    requires stream != ""
    ensures var line := stream[..Until(stream, '\n', 0)];
            && '\n' !in line
            && Lines(stream) == [line] + Lines(AfterLine(stream))
            && Without(stream, '\n') == line + Without(AfterLine(stream), '\n')
  {
    var e := Until(stream, '\n', 0);
    var line := stream[..e];
    assert line == stream[0..e];
    if e < |stream| {
      assert stream == line + "\n" + stream[e + 1..];
      LinesCons(line, stream[e + 1..]);
      WithoutLine(line, stream[e + 1..]);
    } else {
      assert stream == line;
      LinesLast(line);
      WithoutNothing(line, '\n');
    }
  }

  lemma WithoutLine(line: string, rest: string)
    requires '\n' !in line
    ensures Without(line + "\n" + rest, '\n') == line + Without(rest, '\n')
  {
    assert line + "\n" + rest == line + ("\n" + rest) && ("\n" + rest)[1..] == rest;
    WithoutConcat(line, "\n" + rest, '\n');
    WithoutNothing(line, '\n');
  }

  /** ReadFile appends the lines of the file, which drops its newlines. */
  method ReadFile(text: string) returns (out: string)
    ensures out == Without(text, '\n')
  {
    out := "";
    var stream := text;
    while true
      invariant out + Without(stream, '\n') == Without(text, '\n')
      decreases |stream|
    {
      var ok, line, rest := GetLine(stream);
      if !ok {
        break;
      }
      assert (out + line) + Without(rest, '\n') == out + (line + Without(rest, '\n'));
      out, stream := out + line, rest;
    }
  }

  // ---------- JiebaUtil ----------

  /** The words of `tokens` that are not stop words, in order. */
  function Keep(tokens: seq<string>, stop: set<string>): seq<string> {
    if tokens == [] then []
    else (if tokens[0] in stop then [] else [tokens[0]]) + Keep(tokens[1..], stop)
  }

  lemma {:induction false} KeepMembers(tokens: seq<string>, stop: set<string>)
    ensures forall w :: w in Keep(tokens, stop) <==> w in tokens && w !in stop
  {
    if tokens != [] { KeepMembers(tokens[1..], stop); }
  }

  lemma {:induction false} KeepConcat(a: seq<string>, b: seq<string>, stop: set<string>)
    ensures Keep(a + b, stop) == Keep(a, stop) + Keep(b, stop)
  {
    if a == [] {
      assert a + b == b;
    } else {
      assert (a + b)[1..] == a[1..] + b;
      KeepConcat(a[1..], b, stop);
    }
  }

  /** The positions of the tokens that are kept. */
  ghost predicate KeptAt(tokens: seq<string>, stop: set<string>, out: seq<string>, at: seq<nat>) {
    && |at| == |out|
    && (forall j | 0 <= j < |at| :: at[j] < |tokens| && tokens[at[j]] == out[j] && out[j] !in stop)
    && (forall i, j | 0 <= i < j < |at| :: at[i] < at[j])
    && (forall k | 0 <= k < |tokens| && tokens[k] !in stop :: k in at)
  }

  /** Every occurrence of a word that is no stop word is kept once, in its place. */
  lemma {:induction false} KeepExactly(tokens: seq<string>, stop: set<string>) returns (at: seq<nat>)
    ensures KeptAt(tokens, stop, Keep(tokens, stop), at)
    decreases |tokens|
  {
    at := [];
    if tokens != [] {
      var n := |tokens| - 1;
      var front, last := tokens[..n], tokens[n];
      at := KeepExactly(front, stop);
      assert tokens == front + [last] && [last][1..] == [];
      KeepConcat(front, [last], stop);
      if last !in stop { at := at + [n]; }
    }
  }

  /** One turn of the erasing loop: erase a stop word, or step over another one. */
  lemma KeepStep(out: seq<string>, i: nat, stop: set<string>)
    requires i < |out|
    ensures var all := out[..i] + Keep(out[i..], stop);
            if out[i] in stop then
              var erased := out[..i] + out[i + 1..];
              erased[..i] + Keep(erased[i..], stop) == all
            else out[..i + 1] + Keep(out[i + 1..], stop) == all
  {
    assert out[i..][1..] == out[i + 1..];
    if out[i] in stop {
      var erased := out[..i] + out[i + 1..];
      assert erased[..i] == out[..i] && erased[i..] == out[i + 1..];
    } else {
      assert out[..i + 1] == out[..i] + [out[i]];
    }
  }

  /** The segmenter, of which nothing but its signature is known, and the stop words. */
  datatype Lexicon = Lexicon(cut: string -> seq<string>, stop: set<string>) {
    function Tokens(text: string): seq<string> {
      Keep(cut(text), stop)
    }

    function Words(text: string): seq<string> {
      LowerAll(Tokens(text))
    }
  }

  function LowerAll(ws: seq<string>): seq<string> {
    seq(|ws|, i requires 0 <= i < |ws| => Lower(ws[i]))
  }

  /** Every token is a piece of the text it was cut from. */
  ghost predicate CutsPieces(lex: Lexicon) {
    forall text, w :: w in lex.cut(text) ==> Infix(w, text)
  }

  class JiebaUtil {
    const cut: string -> seq<string>
    var stopWords: map<string, bool>

    constructor (cut: string -> seq<string>)
      ensures this.cut == cut && stopWords == map[]
    {
      this.cut := cut;
      stopWords := map[];
    }

    ghost function View(): Lexicon
      reads this
    {
      Lexicon(cut, stopWords.Keys)
    }

    /** One stop word per line of the dictionary. */
    method InitJiebaUtil(lines: seq<string>)
      modifies this
      ensures stopWords.Keys == old(stopWords.Keys) + Elements(lines)
    {
      for i := 0 to |lines|
        invariant stopWords.Keys == old(stopWords.Keys) + Elements(lines[..i])
      {
        Insert(lines[i]);
        assert lines[..i + 1] == lines[..i] + [lines[i]];
      }
      assert lines[..|lines|] == lines;
    }

    /** unordered_map::insert keeps an entry that is already there. */
    method Insert(word: string)
      modifies this
      ensures stopWords.Keys == old(stopWords.Keys) + {word}
    {
      if word !in stopWords {
        stopWords := stopWords[word := true];
      }
    }

    /** Erases the stop words from the vector while walking through it. */
    method CutStringHelper(src: string) returns (out: seq<string>)
      ensures out == View().Tokens(src)
      ensures exists at :: KeptAt(cut(src), stopWords.Keys, out, at)
    {
      out := cut(src);
      var iter := 0;
      ghost var kept := Keep(out, stopWords.Keys);
      while iter != |out|
        invariant iter <= |out|
        invariant out[..iter] + Keep(out[iter..], stopWords.Keys) == kept
        decreases |out| - iter
      {
        KeepStep(out, iter, stopWords.Keys);
        if out[iter] in stopWords {
          out := out[..iter] + out[iter + 1..];
        } else {
          iter := iter + 1;
        }
      }
      assert out[..iter] == out && out[iter..] == [];
      ghost var at := KeepExactly(cut(src), stopWords.Keys);
    }
  }
}
