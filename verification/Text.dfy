/** Strings, as the search engine uses them: first occurrences, ASCII case, lines and fields. */
module Text {
  import opened Common

  // ---------- Occurrences ----------

  predicate OccursAt(s: string, p: string, i: nat) {
    i + |p| <= |s| && s[i..i + |p|] == p
  }

  ghost predicate Infix(p: string, s: string) {
    exists i: nat :: OccursAt(s, p, i)
  }

  ghost predicate FirstAt(s: string, p: string, i: nat) {
    OccursAt(s, p, i) && forall k: nat | k < i :: !OccursAt(s, p, k)
  }

  /** std::string::find. */
  method Find(s: string, p: string) returns (r: Option<nat>)
    ensures r.None? <==> !Infix(p, s)
    ensures r.Some? ==> FirstAt(s, p, r.value)
  {
    var i := 0;
    while i + |p| <= |s|
      invariant forall k: nat | k < i :: !OccursAt(s, p, k)
    {
      if s[i..i + |p|] == p {
        assert OccursAt(s, p, i);
        return Some(i);
      }
      i := i + 1;
    }
    return None;
  }

  lemma InfixPart(p: string, a: string, b: string, c: string)
    requires Infix(p, b)
    ensures Infix(p, a + b + c)
  {
    var i: nat :| OccursAt(b, p, i);
    assert (a + b + c)[|a| + i..|a| + i + |p|] == b[i..i + |p|];
    assert OccursAt(a + b + c, p, |a| + i);
  }

  // ---------- Case ----------

  /** tolower in the "C" locale. */
  function LowerChar(c: char): char {
    if 'A' <= c <= 'Z' then 'a' + (c - 'A') else c
  }

  /** boost::to_lower. */
  function Lower(s: string): (r: string)
    ensures |r| == |s|
  {
    seq(|s|, i requires 0 <= i < |s| => LowerChar(s[i]))
  }

  /** The same letter, or the one in upper and the other in lower case. */
  predicate SameLetter(c: char, d: char) {
    || c == d
    || (65 <= c as int <= 90 && d as int == c as int + 32)
    || (65 <= d as int <= 90 && c as int == d as int + 32)
  }

  /** The lower-case form of a string is the one string without capitals that differs from it in case only. */
  lemma LowerExactly(s: string, t: string)
    ensures t == Lower(s) <==>
            |t| == |s| && forall i | 0 <= i < |s| :: SameLetter(s[i], t[i]) && !(65 <= t[i] as int <= 90)
  {
  }

  lemma LowerTwice(s: string)
    ensures Lower(Lower(s)) == Lower(s)
  {
  }

  lemma LowerSlice(s: string, i: nat, j: nat)
    requires i <= j <= |s|
    ensures Lower(s)[i..j] == Lower(s[i..j])
  {
  }

  lemma LowerInfix(p: string, s: string)
    requires Infix(p, s)
    ensures Infix(Lower(p), Lower(s))
  {
    var i: nat :| OccursAt(s, p, i);
    assert OccursAt(Lower(s), Lower(p), i);
  }

  // ---------- Characters of a string ----------

  function Without(s: string, c: char): string {
    if s == [] then [] else (if s[0] == c then [] else [s[0]]) + Without(s[1..], c)
  }

  function Count(s: string, c: char): nat {
    if s == [] then 0 else (if s[0] == c then 1 else 0) + Count(s[1..], c)
  }

  lemma {:induction false} WithoutConcat(a: string, b: string, c: char)
    ensures Without(a + b, c) == Without(a, c) + Without(b, c)
  {
    if a == [] {
      assert a + b == b;
    } else {
      assert (a + b)[1..] == a[1..] + b;
      WithoutConcat(a[1..], b, c);
    }
  }

  lemma {:induction false} WithoutIsFree(s: string, c: char)
    ensures c !in Without(s, c)
    ensures forall d | d in Without(s, c) :: d in s
  {
    if s != [] { WithoutIsFree(s[1..], c); }
  }

  lemma {:induction false} WithoutNothing(s: string, c: char)
    requires c !in s
    ensures Without(s, c) == s
  {
    if s != [] { WithoutNothing(s[1..], c); }
  }

  lemma {:induction false} CountConcat(a: string, b: string, c: char)
    ensures Count(a + b, c) == Count(a, c) + Count(b, c)
  {
    if a == [] {
      assert a + b == b;
    } else {
      assert (a + b)[1..] == a[1..] + b;
      CountConcat(a[1..], b, c);
    }
  }

  lemma {:induction false} CountZero(s: string, c: char)
    ensures Count(s, c) == 0 <==> c !in s
  {
    if s != [] { CountZero(s[1..], c); }
  }

  // ---------- Lines ----------

  /** How far the next character c is from position i. */
  function Until(s: string, c: char, i: nat): (e: nat)
    requires i <= |s|
    ensures i <= e <= |s| && c !in s[i..e] && (e < |s| ==> s[e] == c)
    decreases |s| - i
  {
    if i < |s| && s[i] != c then
      var e := Until(s, c, i + 1);
      assert s[i..e] == [s[i]] + s[i + 1..e];
      e
    else i
  }

  /** The lines that repeated getline calls extract. */
  function Lines(s: string): seq<string>
    decreases |s|
  {
    if s == [] then []
    else
      var e := Until(s, '\n', 0);
      [s[..e]] + if e < |s| then Lines(s[e + 1..]) else []
  }

  lemma UntilAt(a: string, b: string, c: char)
    requires c !in a
    ensures Until(a + [c] + b, c, 0) == |a|
  {
    var s := a + [c] + b;
    var e := Until(s, c, 0);
    assert forall k | 0 <= k < |a| :: s[k] == a[k];
    assert forall k | 0 <= k < e :: s[0..e][k] == s[k];
    assert s[|a|] == c;
  }

  lemma LinesCons(a: string, b: string)
    requires '\n' !in a
    ensures Lines(a + "\n" + b) == [a] + Lines(b)
  {
    var s := a + "\n" + b;
    assert s == a + ['\n'] + b;
    UntilAt(a, b, '\n');
    assert s[..|a|] == a && s[|a| + 1..] == b;
  }

  lemma LinesLast(a: string)
    requires '\n' !in a && a != []
    ensures Lines(a) == [a]
  {
    assert forall k | 0 <= k < |a| :: a[k] != '\n';
    assert a[..|a|] == a;
  }

  // ---------- Fields ----------

  /** Past the run of separators that starts at i. */
  function SkipRun(s: string, c: char, i: nat): (e: nat)
    requires i <= |s|
    ensures i <= e <= |s| && (e < |s| ==> s[e] != c) && (i < |s| && s[i] == c ==> i < e)
    decreases |s| - i
  {
    if i < |s| && s[i] == c then SkipRun(s, c, i + 1) else i
  }

  /** boost::split with token_compress_on: adjacent separators count as one. */
  function Split(s: string, c: char): (fields: seq<string>)
    ensures |fields| > 0
    ensures forall f | f in fields :: c !in f
    decreases |s|
  {
    var e := Until(s, c, 0);
    if e == |s| then assert s[..e] == s[0..e]; [s[..e]]
    else
      var rest := Split(s[SkipRun(s, c, e)..], c);
      assert s[..e] == s[0..e];
      [s[..e]] + rest
  }

  lemma SplitCons(a: string, b: string, c: char)
    requires c !in a && (b != [] ==> b[0] != c)
    ensures Split(a + [c] + b, c) == [a] + Split(b, c)
  {
    var s := a + [c] + b;
    UntilAt(a, b, c);
    assert s[|a|] == c && (|a| + 1 < |s| ==> s[|a| + 1] == b[0]);
    assert SkipRun(s, c, |a|) == SkipRun(s, c, |a| + 1) == |a| + 1;
    assert s[|a| + 1..] == b && s[..|a|] == a;
  }

  lemma DoubleRun(a: string, b: string, c: char)
    requires b != [] ==> b[0] != c
    ensures SkipRun(a + [c] + ([c] + b), c, |a|) == |a| + 2
  {
    var s := a + [c] + ([c] + b);
    assert s[|a|] == c && s[|a| + 1] == c && (|a| + 2 < |s| ==> s[|a| + 2] == b[0]);
    assert SkipRun(s, c, |a| + 2) == |a| + 2;
    assert SkipRun(s, c, |a| + 1) == |a| + 2;
  }

  lemma SplitStep(s: string, c: char)
    requires Until(s, c, 0) < |s|
    ensures Split(s, c) == [s[..Until(s, c, 0)]] + Split(s[SkipRun(s, c, Until(s, c, 0))..], c)
  {
  }

  /** Two separators in a row do not enclose an empty field. */
  lemma SplitDouble(a: string, b: string, c: char)
    requires c !in a && (b != [] ==> b[0] != c)
    ensures Split(a + [c] + ([c] + b), c) == [a] + Split(b, c)
  {
    var s := a + [c] + ([c] + b);
    UntilAt(a, [c] + b, c);
    DoubleRun(a, b, c);
    SplitStep(s, c);
    assert s[|a| + 2..] == b && s[..|a|] == a;
  }

  lemma SplitOne(a: string, c: char)
    requires c !in a
    ensures Split(a, c) == [a]
  {
    assert forall k | 0 <= k < |a| :: a[k] != c;
    assert a[..|a|] == a;
  }
}
