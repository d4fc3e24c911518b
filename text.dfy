/**
 * Character classes and the splitting of a text into word runs.
 *
 * Python's `\w` and `\s` are Unicode classes; this model restricts them to
 * ASCII.  `\w` is letters, digits and the underscore; `\s` is every ASCII
 * character for which `str.isspace()` holds: tab, line feed, vertical tab,
 * form feed, carriage return, the four separators 0x1C-0x1F and the blank.
 */
module Text {

  predicate IsWord(c: char) {
    ('a' <= c <= 'z') || ('A' <= c <= 'Z') || ('0' <= c <= '9') || c == '_'
  }

  predicate IsSpace(c: char) {
    (9 <= c as int <= 13) || (28 <= c as int <= 32)
  }

  /** The two classes the patterns of the program are built from. */
  datatype Class = Word | Space

  predicate In(c: Class, ch: char) {
    match c
    case Word => IsWord(ch)
    case Space => IsSpace(ch)
  }

  predicate AllIn(c: Class, s: string) {
    forall i | 0 <= i < |s| :: In(c, s[i])
  }

  /** Length of the longest prefix of `s` whose characters all belong to `c`. */
  function RunLen(c: Class, s: string): (n: nat)
    ensures n <= |s|
    ensures AllIn(c, s[..n])
    ensures n < |s| ==> !In(c, s[n])
  {
    if |s| > 0 && In(c, s[0]) then 1 + RunLen(c, s[1..]) else 0
  }

  /** A maximal word run (a token) and the maximal whitespace run after it. */
  datatype Run = Run(token: string, gap: string)

  function Concat(rs: seq<Run>): string {
    if rs == [] then [] else rs[0].token + rs[0].gap + Concat(rs[1..])
  }

  /** The first token of `s`: its longest word prefix. */
  function Token(s: string): string {
    s[..RunLen(Word, s)]
  }

  /** The maximal whitespace run after the first token of `s`. */
  function Gap(s: string): (g: string)
    ensures |Token(s)| + |g| <= |s| && g == s[|Token(s)|..|Token(s)| + |g|] && AllIn(Space, g)
    ensures |Token(s)| + |g| < |s| ==> !IsSpace(s[|Token(s)| + |g|])
  {
    var n := RunLen(Word, s);
    var g := s[n..][..RunLen(Space, s[n..])];
    assert g == s[n..n + |g|];
    g
  }

  /** What follows the first token of `s` and the whitespace after it. */
  function After(s: string): (r: string)
    ensures s == Token(s) + Gap(s) + r
  {
    var k := |Token(s)| + |Gap(s)|;
    assert s == s[..|Token(s)|] + s[|Token(s)|..k] + s[k..];
    s[k..]
  }

  /**
   * The tokens of `s` from its start: a maximal word run, the maximal
   * whitespace run after it, and so on until a character that is neither a
   * word character nor whitespace ends the sequence.
   */
  function Runs(s: string): (rs: seq<Run>)
    ensures forall j | 0 <= j < |rs| :: |rs[j].token| > 0 && AllIn(Word, rs[j].token) && AllIn(Space, rs[j].gap)
    ensures forall j | 0 <= j < |rs| - 1 :: rs[j].gap != []
    decreases |s|
  {
    if Token(s) == [] then []
    else
      var rest := Runs(After(s));
      assert Gap(s) == [] ==> rest == [] by {
        if Gap(s) == [] && After(s) != [] {
          assert After(s)[0] == s[|Token(s)|];
        }
      }
      [Run(Token(s), Gap(s))] + rest
  }

  /**
   * The runs spell out a prefix of `s`, and what stops them is a character
   * that cannot start a token (nor, after a token, continue its gap).
   */
  lemma {:induction false} RunsCover(s: string)
    ensures |Concat(Runs(s))| <= |s| && s[..|Concat(Runs(s))|] == Concat(Runs(s))
    ensures |Concat(Runs(s))| < |s| ==> !IsWord(s[|Concat(Runs(s))|])
    ensures |Concat(Runs(s))| < |s| && Runs(s) != [] ==> !IsSpace(s[|Concat(Runs(s))|])
    decreases |s|
  {
    if Token(s) != [] {
      var rest := After(s);
      RunsCover(rest);
      var p := Token(s) + Gap(s);
      var c := Concat(Runs(rest));
      ConcatStep(s);
      assert s == p + rest;
      PrefixStep(p, rest, |c|);
      if |p| + |c| < |s| {
        if Runs(rest) == [] && Gap(s) == [] {
          assert |c| == 0;
          assert !IsSpace(s[|Token(s)|]);
        }
      }
    }
  }

  lemma ConcatStep(s: string)
    requires Token(s) != []
    ensures Concat(Runs(s)) == Token(s) + Gap(s) + Concat(Runs(After(s)))
  {
    assert Runs(s) == [Run(Token(s), Gap(s))] + Runs(After(s));
  }

  lemma PrefixStep(p: string, r: string, k: nat)
    requires k <= |r|
    ensures (p + r)[..|p| + k] == p + r[..k]
    ensures |p| + k < |p + r| ==> (p + r)[|p| + k] == r[k]
  {
  }

  /** A word character is never whitespace. */
  lemma WordNotSpace(c: char)
    ensures IsWord(c) ==> !IsSpace(c)
  {
  }

  /** A run of class `c` followed by something that cannot continue it has exactly its own length. */
  lemma {:induction false} RunLenOf(c: Class, u: string, v: string)
    requires AllIn(c, u) && (v != [] ==> !In(c, v[0]))
    ensures RunLen(c, u + v) == |u|
    decreases |u|
  {
    if u == [] {
      assert u + v == v;
    } else {
      assert (u + v)[0] == u[0];
      assert (u + v)[1..] == u[1..] + v;
      RunLenOf(c, u[1..], v);
    }
  }

  /**
   * A text that starts with a token `t` and the whitespace `g` after it:
   * the first run is `Run(t, g)` and the runs go on with what follows.
   */
  lemma RunsOf(t: string, g: string, r: string)
    requires t != [] && AllIn(Word, t) && AllIn(Space, g)
    requires r != [] ==> !IsSpace(r[0]) && (g == [] ==> !IsWord(r[0]))
    ensures Token(t + g + r) == t && Gap(t + g + r) == g && After(t + g + r) == r
    ensures Runs(t + g + r) == [Run(t, g)] + Runs(r)
  {
    var s := t + g + r;
    assert s == t + (g + r);
    if g != [] {
      assert (g + r)[0] == g[0];
      WordNotSpace(g[0]);
    } else {
      assert g + r == r;
    }
    RunLenOf(Word, t, g + r);
    assert Token(s) == t;
    assert s[|t|..] == g + r;
    RunLenOf(Space, g, r);
    assert Gap(s) == g;
    assert After(s) == r;
  }

  /** Python's `s.split(sep)`: the parts between separators, always at least one. */
  function Split(s: string, sep: char): (parts: seq<string>)
    ensures |parts| > 0
    ensures forall j | 0 <= j < |parts| :: sep !in parts[j]
    decreases |s|
  {
    if s == [] then [[]]
    else
      var rest := Split(s[1..], sep);
      if s[0] == sep then [[]] + rest else [[s[0]] + rest[0]] + rest[1..]
  }

  /** Python's `sep.join(parts)`. */
  function Join(sep: char, parts: seq<string>): string {
    if parts == [] then []
    else if |parts| == 1 then parts[0]
    else parts[0] + [sep] + Join(sep, parts[1..])
  }

  lemma JoinCons(sep: char, part: string, parts: seq<string>)
    requires parts != []
    ensures Join(sep, [part] + parts) == part + [sep] + Join(sep, parts)
  {
    assert ([part] + parts)[1..] == parts;
  }

  /** Joining the parts of a split gives the text back. */
  lemma {:induction false} JoinSplit(s: string, sep: char)
    ensures Join(sep, Split(s, sep)) == s
    decreases |s|
  {
    if s != [] {
      var rest := Split(s[1..], sep);
      JoinSplit(s[1..], sep);
      if s[0] == sep {
        assert ([[]] + rest)[1..] == rest;
      } else if |rest| > 1 {
        var parts := [[s[0]] + rest[0]] + rest[1..];
        assert parts[1..] == rest[1..];
        assert Join(sep, rest) == rest[0] + [sep] + Join(sep, rest[1..]);
      }
    }
  }

  /** A part without the separator, followed by the separator, splits off as one part. */
  lemma {:induction false} SplitAfter(p: string, x: string, sep: char)
    requires sep !in p
    ensures Split(p + [sep] + x, sep) == [p] + Split(x, sep)
    decreases |p|
  {
    if p == [] {
      assert ([] + [sep] + x)[1..] == x;
    } else {
      assert (p + [sep] + x)[1..] == p[1..] + [sep] + x;
      SplitAfter(p[1..], x, sep);
      assert [p[0]] + p[1..] == p;
    }
  }

  /** A text without the separator is one part. */
  lemma {:induction false} SplitNone(p: string, sep: char)
    requires sep !in p
    ensures Split(p, sep) == [p]
    decreases |p|
  {
    if p != [] {
      SplitNone(p[1..], sep);
      assert [p[0]] + p[1..] == p;
    }
  }

  /** Splitting joined parts that do not contain the separator gives the parts back. */
  lemma {:induction false} SplitJoin(parts: seq<string>, sep: char)
    requires |parts| > 0 && forall j | 0 <= j < |parts| :: sep !in parts[j]
    ensures Split(Join(sep, parts), sep) == parts
    decreases |parts|
  {
    if |parts| == 1 {
      SplitNone(parts[0], sep);
    } else {
      SplitJoin(parts[1..], sep);
      SplitAfter(parts[0], Join(sep, parts[1..]), sep);
      assert [parts[0]] + parts[1..] == parts;
    }
  }

  /** Every character is a word character or whitespace. */
  predicate OnlyWordOrSpace(s: string) {
    forall i | 0 <= i < |s| :: IsWord(s[i]) || IsSpace(s[i])
  }

  lemma OnlyWordOrSpaceJoin(t: string, g: string)
    requires AllIn(Word, t) && AllIn(Space, g)
    ensures OnlyWordOrSpace(t + g)
  {
    forall i | 0 <= i < |t + g| ensures IsWord((t + g)[i]) || IsSpace((t + g)[i]) {
      if i < |t| { assert (t + g)[i] == t[i]; } else { assert (t + g)[i] == g[i - |t|]; }
    }
  }

  lemma OnlyWordOrSpaceJoin3(t: string, g: string, r: string)
    requires AllIn(Word, t) && AllIn(Space, g) && OnlyWordOrSpace(r)
    ensures OnlyWordOrSpace(t + g + r)
  {
    OnlyWordOrSpaceJoin(t, g);
    var p := t + g;
    forall i | 0 <= i < |p + r| ensures IsWord((p + r)[i]) || IsSpace((p + r)[i]) {
      if i < |p| { assert (p + r)[i] == p[i]; } else { assert (p + r)[i] == r[i - |p|]; }
    }
  }

  /** The text spelled by tokens `ts`, each followed by the whitespace in `gs` at the same index. */
  function Line(ts: seq<string>, gs: seq<string>): string
    requires |ts| == |gs|
  {
    if ts == [] then [] else ts[0] + gs[0] + Line(ts[1..], gs[1..])
  }

  lemma {:induction false} LineAppend(ts1: seq<string>, gs1: seq<string>, ts2: seq<string>, gs2: seq<string>)
    requires |ts1| == |gs1| && |ts2| == |gs2|
    ensures Line(ts1 + ts2, gs1 + gs2) == Line(ts1, gs1) + Line(ts2, gs2)
    decreases |ts1|
  {
    if ts1 == [] {
      assert ts1 + ts2 == ts2 && gs1 + gs2 == gs2;
    } else {
      LineAppend(ts1[1..], gs1[1..], ts2, gs2);
      assert (ts1 + ts2)[1..] == ts1[1..] + ts2;
      assert (gs1 + gs2)[1..] == gs1[1..] + gs2;
    }
  }

  lemma LineOne(t: string, g: string)
    ensures Line([t], [g]) == t + g
  {
    assert [t][1..] == [] && [g][1..] == [];
  }

  /** Three tokens and the whitespace after each. */
  lemma LineThree(a: string, b: string, c: string, g1: string, g2: string, g3: string)
    ensures Line([a, b, c], [g1, g2, g3]) == a + g1 + b + g2 + c + g3
  {
    LineOne(a, g1); LineOne(b, g2); LineOne(c, g3);
    LineAppend([a], [g1], [b], [g2]);
    LineAppend([a, b], [g1, g2], [c], [g3]);
  }

  /** Four tokens and the whitespace after each. */
  lemma LineFour(a: string, b: string, c: string, d: string, g1: string, g2: string, g3: string, g4: string)
    ensures Line([a, b, c, d], [g1, g2, g3, g4]) == a + g1 + b + g2 + c + g3 + d + g4
  {
    LineOne(a, g1); LineOne(b, g2); LineOne(c, g3); LineOne(d, g4);
    LineAppend([a], [g1], [b], [g2]);
    LineAppend([c], [g3], [d], [g4]);
    LineAppend([a, b], [g1, g2], [c, d], [g3, g4]);
  }

  /** Each token with the whitespace at the same index. */
  function Zip(ts: seq<string>, gs: seq<string>): (rs: seq<Run>)
    requires |ts| == |gs|
    ensures |rs| == |ts| && forall j | 0 <= j < |ts| :: rs[j] == Run(ts[j], gs[j])
  {
    if ts == [] then [] else [Run(ts[0], gs[0])] + Zip(ts[1..], gs[1..])
  }

  /** Tokens with non-empty whitespace after each, in front of a text that starts with a word character. */
  lemma {:induction false} RunsOfPrefix(ts: seq<string>, gs: seq<string>, r: string)
    requires |ts| == |gs|
    requires forall j | 0 <= j < |ts| :: ts[j] != [] && AllIn(Word, ts[j]) && gs[j] != [] && AllIn(Space, gs[j])
    requires r != [] && IsWord(r[0])
    ensures Line(ts, gs) + r != [] && IsWord((Line(ts, gs) + r)[0])
    ensures Runs(Line(ts, gs) + r) == Zip(ts, gs) + Runs(r)
    decreases |ts|
  {
    if ts == [] {
      assert Line(ts, gs) + r == r;
    } else {
      assert forall j | 0 <= j < |ts| - 1 :: ts[1..][j] == ts[j + 1] && gs[1..][j] == gs[j + 1];
      RunsOfPrefix(ts[1..], gs[1..], r);
      RunsOfPrefixStep(ts, gs, r);
    }
  }

  lemma RunsOfPrefixStep(ts: seq<string>, gs: seq<string>, r: string)
    requires |ts| == |gs| && ts != []
    requires ts[0] != [] && AllIn(Word, ts[0]) && gs[0] != [] && AllIn(Space, gs[0])
    requires Line(ts[1..], gs[1..]) + r != [] && IsWord((Line(ts[1..], gs[1..]) + r)[0])
    requires Runs(Line(ts[1..], gs[1..]) + r) == Zip(ts[1..], gs[1..]) + Runs(r)
    ensures Line(ts, gs) + r != [] && IsWord((Line(ts, gs) + r)[0])
    ensures Runs(Line(ts, gs) + r) == Zip(ts, gs) + Runs(r)
  {
    var tail := Line(ts[1..], gs[1..]) + r;
    LineCons(ts, gs, r);
    PrefixRuns(ts[0], gs[0], tail);
    assert Zip(ts, gs) == [Run(ts[0], gs[0])] + Zip(ts[1..], gs[1..]);
    AppendAssoc([Run(ts[0], gs[0])], Zip(ts[1..], gs[1..]), Runs(r));
  }

  /** The text of runs one after another is the text of each in turn. */
  lemma {:induction false} ConcatAppend(xs: seq<Run>, ys: seq<Run>)
    ensures Concat(xs + ys) == Concat(xs) + Concat(ys)
  {
    if xs == [] {
      assert xs + ys == ys;
    } else {
      assert (xs + ys)[0] == xs[0] && (xs + ys)[1..] == xs[1..] + ys;
      ConcatAppend(xs[1..], ys);
      AppendAssoc(xs[0].token + xs[0].gap, Concat(xs[1..]), Concat(ys));
    }
  }

  /** Runs built from tokens and gaps spell the line of those tokens and gaps. */
  lemma {:induction false} ConcatZip(ts: seq<string>, gs: seq<string>)
    requires |ts| == |gs|
    ensures Concat(Zip(ts, gs)) == Line(ts, gs)
  {
    if ts != [] {
      ConcatZip(ts[1..], gs[1..]);
    }
  }

  lemma AppendAssoc<T>(a: seq<T>, b: seq<T>, c: seq<T>)
    ensures (a + b) + c == a + (b + c)
  {
  }

  lemma LineCons(ts: seq<string>, gs: seq<string>, r: string)
    requires |ts| == |gs| && ts != []
    ensures Line(ts, gs) + r == ts[0] + gs[0] + (Line(ts[1..], gs[1..]) + r)
  {
  }

  /** One token and non-empty whitespace in front of a text that starts with a word character. */
  lemma PrefixRuns(t: string, g: string, r: string)
    requires t != [] && AllIn(Word, t) && g != [] && AllIn(Space, g)
    requires r != [] && IsWord(r[0])
    ensures t + g + r != [] && IsWord((t + g + r)[0])
    ensures Runs(t + g + r) == [Run(t, g)] + Runs(r)
  {
    WordNotSpace(r[0]);
    RunsOf(t, g, r);
    assert (t + g + r)[0] == t[0];
    assert In(Word, t[0]);
  }

  /** Word tokens separated by non-empty whitespace are exactly the runs of the text they spell. */
  lemma {:induction false} RunsOfLine(ts: seq<string>, gs: seq<string>)
    requires |ts| == |gs|
    requires forall j | 0 <= j < |ts| :: ts[j] != [] && AllIn(Word, ts[j]) && AllIn(Space, gs[j])
    requires forall j | 0 <= j < |ts| - 1 :: gs[j] != []
    ensures Runs(Line(ts, gs)) == Zip(ts, gs)
    ensures OnlyWordOrSpace(Line(ts, gs))
    ensures ts != [] ==> |Line(ts, gs)| > 0 && IsWord(Line(ts, gs)[0])
    decreases |ts|
  {
    if ts == [] {
      assert Token([]) == [];
    } else {
      var r := Line(ts[1..], gs[1..]);
      RunsOfLine(ts[1..], gs[1..]);
      if r != [] {
        assert ts[1..] != [];
        WordNotSpace(r[0]);
      }
      RunsOf(ts[0], gs[0], r);
      OnlyWordOrSpaceJoin3(ts[0], gs[0], r);
      assert Line(ts, gs)[0] == ts[0][0];
      assert In(Word, ts[0][0]);
    }
  }

  /** The tokens of a sequence of runs. */
  function Tokens(rs: seq<Run>): (ts: seq<string>)
    ensures |ts| == |rs| && forall j | 0 <= j < |rs| :: ts[j] == rs[j].token
  {
    if rs == [] then [] else [rs[0].token] + Tokens(rs[1..])
  }

  /** ASCII upper-casing of one character. */
  function UpperChar(c: char): char {
    if 'a' <= c <= 'z' then (c as int - 32) as char else c
  }

  /** `str.upper()` restricted to ASCII: each lower-case letter becomes its upper-case letter, nothing else changes. */
  function Upper(s: string): (u: string)
    ensures |u| == |s|
    ensures forall i | 0 <= i < |s| :: !('a' <= u[i] <= 'z')
    ensures forall i | 0 <= i < |s| :: !('a' <= s[i] <= 'z') ==> u[i] == s[i]
    ensures forall i | 0 <= i < |s| :: 'a' <= s[i] <= 'z' ==> u[i] == (s[i] as int - 32) as char
    ensures AllIn(Word, s) ==> AllIn(Word, u)
  {
    seq(|s|, i requires 0 <= i < |s| => UpperChar(s[i]))
  }
}
