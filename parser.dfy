/**
 * The line parser inside `generate_report`: the text is split at line
 * feeds, empty lines are skipped, and each other line is matched with
 * `re.match` against `(\w+)\s+(\w+)\s+(\w+)\s+(\w+)`, which is anchored at
 * the start of the line only.  The four groups, upper-cased, are the codes
 * of one report row.
 *
 * The greedy `\w+` of each group takes a whole word run and the `\s+`
 * between groups a whole whitespace run (a shorter choice would leave a
 * word character where whitespace must follow), so the groups are the
 * first four tokens of the line.  `PrefixMatch` proves that the match
 * succeeds exactly when the line starts with four tokens.
 */
module Parser {
  import opened Wrappers
  import opened Text
  import opened Regex

  /** The codes of one input line, in the order of the first four report columns. */
  datatype Request = Request(srcCountry: string, srcCurrency: string, dstCountry: string, dstCurrency: string)

  /** `text.split('\n')`: the lines the report loop walks, empty ones included. */
  function Lines(text: string): (lines: seq<string>)
    ensures |lines| > 0
    ensures forall j | 0 <= j < |lines| :: '\n' !in lines[j]
    ensures Join('\n', lines) == text
  {
    JoinSplit(text, '\n');
    Split(text, '\n')
  }

  /**
   * From token `k` (0-based) of the pattern on, `re.match` succeeds
   * exactly when at least `4 - k` tokens follow.
   */
  lemma {:induction false} PrefixMatch(s: string, k: nat)
    requires k < 4
    ensures Match(FromToken(k, Rest), s, Rest) <==> |Runs(s)| >= 4 - k
    decreases 3 - k
  {
    if |s| == 0 || !IsWord(s[0]) {
      PlusNeeds(Word, FromToken(k, Rest), s, Rest);
      assert Token(s) == [];
    } else if k < 3 {
      TokenStep(s, k, Rest);
      PrefixMatch(After(s), k + 1);
      assert Runs(s) == [Run(Token(s), Gap(s))] + Runs(After(s));
    } else {
      assert FromToken(k, Rest) == [Plus(Word)];
      assert [Plus(Word)][1..] == [];
      assert [Star(Word)] + [] == [Star(Word)];
      assert [Star(Word)][1..] == [];
      assert Match([Star(Word)], s[1..], Rest);
      assert Token(s) != [];
    }
  }

  /**
   * `re.match(r'(\w+)\s+(\w+)\s+(\w+)\s+(\w+)', line)`: the four groups
   * when the line starts with four tokens, which are those tokens.
   */
  function MatchGroups(line: string): (groups: Option<seq<string>>)
    ensures groups.Some? ==> |groups.value| == 4 &&
                             forall j | 0 <= j < 4 :: groups.value[j] != [] && AllIn(Word, groups.value[j])
  {
    var rs := Runs(line);
    if |rs| >= 4 then Some(Tokens(rs[..4])) else None
  }

  /**
   * What a match of the pattern captures: `line` is the four words `g`
   * with the non-empty whitespace `gaps` between them, then a `rest` that
   * does not start with a word character (the greedy last `\w+`).
   */
  predicate SplitAs(line: string, g: seq<string>, gaps: seq<string>, rest: string) {
    |g| == 4 && |gaps| == 3 &&
    (forall j | 0 <= j < 4 :: g[j] != [] && AllIn(Word, g[j])) &&
    (forall j | 0 <= j < 3 :: gaps[j] != [] && AllIn(Space, gaps[j])) &&
    (rest != [] ==> !IsWord(rest[0])) &&
    line == Line(g[..3], gaps) + g[3] + rest
  }

  /** Groups found are a split of the line. */
  lemma MatchGroupsFound(line: string) returns (gaps: seq<string>, rest: string)
    requires MatchGroups(line).Some?
    ensures SplitAs(line, MatchGroups(line).value, gaps, rest)
  {
    RunsCover(line);
    gaps, rest := SplitOfRuns(line, Runs(line));
  }

  /** A line that starts with at least four runs `rs`, which are followed by no word character. */
  lemma SplitOfRuns(line: string, rs: seq<Run>) returns (gaps: seq<string>, rest: string)
    requires |rs| >= 4
    requires forall j | 0 <= j < |rs| :: |rs[j].token| > 0 && AllIn(Word, rs[j].token) && AllIn(Space, rs[j].gap)
    requires forall j | 0 <= j < |rs| - 1 :: rs[j].gap != []
    requires |Concat(rs)| <= |line| && line[..|Concat(rs)|] == Concat(rs)
    requires |Concat(rs)| < |line| ==> !IsWord(line[|Concat(rs)|])
    ensures SplitAs(line, Tokens(rs[..4]), gaps, rest)
  {
    var ts := [rs[0].token, rs[1].token, rs[2].token];
    gaps := [rs[0].gap, rs[1].gap, rs[2].gap];
    var g := Tokens(rs[..4]);
    assert g[..3] == ts;
    assert rs[..3] == Zip(ts, gaps);
    assert rs == rs[..3] + rs[3..];
    ConcatAppend(rs[..3], rs[3..]);
    ConcatZip(ts, gaps);
    var tail := Concat(rs[4..]);
    assert rs[3..][1..] == rs[4..];
    assert Concat(rs[3..]) == g[3] + rs[3].gap + tail;
    var x := line[|Concat(rs)|..];
    assert line == Concat(rs) + x;
    rest := rs[3].gap + tail + x;
    Regroup(Line(ts, gaps), g[3], rs[3].gap, tail, x);
    RestAfterRuns(rs, x);
  }

  /** Serves `SplitOfRuns`: moves the whitespace after the fourth group into the rest. */
  lemma Regroup(a: string, b: string, c: string, d: string, x: string)
    ensures a + (b + c + d) + x == a + b + (c + d + x)
  {
  }

  /** After the fourth token comes whitespace, or nothing a word character could be. */
  lemma RestAfterRuns(rs: seq<Run>, x: string)
    requires |rs| >= 4 && AllIn(Space, rs[3].gap)
    requires |rs| > 4 ==> rs[3].gap != []
    requires x != [] ==> !IsWord(x[0])
    ensures var rest := rs[3].gap + Concat(rs[4..]) + x; rest != [] ==> !IsWord(rest[0])
  {
    var rest := rs[3].gap + Concat(rs[4..]) + x;
    if rest != [] {
      if rs[3].gap != [] {
        assert rest[0] == rs[3].gap[0] && In(Space, rs[3].gap[0]);
      } else {
        assert rs[4..] == [] && rest == x;
      }
    }
  }

  /**
   * Any split of the line fixes the groups: it is the one the pattern
   * captures, and a line with no match has no split at all.
   */
  lemma MatchGroupsUnique(line: string, g: seq<string>, gaps: seq<string>, rest: string)
    requires SplitAs(line, g, gaps, rest)
    ensures MatchGroups(line) == Some(g)
  {
    assert g[..3] == [g[0], g[1], g[2]] && gaps == [gaps[0], gaps[1], gaps[2]];
    assert g == [g[0], g[1], g[2], g[3]];
    GroupsOf(g[0], g[1], g[2], g[3], gaps[0], gaps[1], gaps[2], rest);
  }

  lemma GroupsOf(a: string, b: string, c: string, d: string, g1: string, g2: string, g3: string, rest: string)
    requires a != [] && b != [] && c != [] && d != []
    requires AllIn(Word, a) && AllIn(Word, b) && AllIn(Word, c) && AllIn(Word, d)
    requires g1 != [] && g2 != [] && g3 != []
    requires AllIn(Space, g1) && AllIn(Space, g2) && AllIn(Space, g3)
    requires rest != [] ==> !IsWord(rest[0])
    ensures MatchGroups(Line([a, b, c], [g1, g2, g3]) + d + rest) == Some([a, b, c, d])
  {
    RunsOfSplit(a, b, c, d, g1, g2, g3, rest);
  }

  lemma RunsOfSplit(a: string, b: string, c: string, d: string, g1: string, g2: string, g3: string, rest: string)
    requires a != [] && b != [] && c != [] && d != []
    requires AllIn(Word, a) && AllIn(Word, b) && AllIn(Word, c) && AllIn(Word, d)
    requires g1 != [] && g2 != [] && g3 != []
    requires AllIn(Space, g1) && AllIn(Space, g2) && AllIn(Space, g3)
    requires rest != [] ==> !IsWord(rest[0])
    ensures var rs := Runs(Line([a, b, c], [g1, g2, g3]) + d + rest);
            |rs| >= 4 && Tokens(rs[..4]) == [a, b, c, d]
  {
    var line := Line([a, b, c], [g1, g2, g3]) + (d + rest);
    assert line == Line([a, b, c], [g1, g2, g3]) + d + rest;
    FirstToken(d, rest);
    assert forall j | 0 <= j < 3 :: [a, b, c][j] != [] && AllIn(Word, [a, b, c][j]) &&
                                    [g1, g2, g3][j] != [] && AllIn(Space, [g1, g2, g3][j]);
    RunsOfPrefix([a, b, c], [g1, g2, g3], d + rest);
    FourTokens(Zip([a, b, c], [g1, g2, g3]), Runs(d + rest), [a, b, c], d);
    assert [a, b, c] + [d] == [a, b, c, d];
  }

  /** The groups are there exactly when the pattern matches at the start of the line. */
  lemma MatchGroupsIsMatch(line: string)
    ensures MatchGroups(line).Some? <==> Match(FromToken(0, Rest), line, Rest)
  {
    PrefixMatch(line, 0);
  }

  /**
   * One line as the report loop reads it: the upper-cased groups of the
   * match, or `None` where the program goes on to call `m.group` on no
   * match and fails.
   */
  function ParseLine(line: string): (r: Option<Request>)
    ensures r.Some? <==> |Runs(line)| >= 4
    ensures r.Some? ==> Code(r.value.srcCountry) && Code(r.value.srcCurrency) &&
                        Code(r.value.dstCountry) && Code(r.value.dstCurrency)
  {
    match MatchGroups(line)
    case None => None
    case Some(g) =>
      assert forall j | 0 <= j < 4 :: g[j] == Runs(line)[j].token;
      Some(Request(Upper(g[0]), Upper(g[1]), Upper(g[2]), Upper(g[3])))
  }

  /** What a parsed code is: a non-empty run of word characters without a lower-case letter. */
  predicate Code(s: string) {
    |s| > 0 && AllIn(Word, s) && forall i | 0 <= i < |s| :: !('a' <= s[i] <= 'z')
  }

  /**
   * A line that starts with four tokens separated by whitespace is parsed
   * into those tokens, upper-cased, whatever follows the fourth token:
   * the rest of the line is ignored.
   */
  lemma ParseLineSpec(a: string, b: string, c: string, d: string, g1: string, g2: string, g3: string, rest: string)
    requires a != [] && b != [] && c != [] && d != []
    requires AllIn(Word, a) && AllIn(Word, b) && AllIn(Word, c) && AllIn(Word, d)
    requires g1 != [] && g2 != [] && g3 != []
    requires AllIn(Space, g1) && AllIn(Space, g2) && AllIn(Space, g3)
    requires rest != [] ==> !IsWord(rest[0])
    ensures ParseLine(Line([a, b, c], [g1, g2, g3]) + d + rest) ==
            Some(Request(Upper(a), Upper(b), Upper(c), Upper(d)))
  {
    GroupsOf(a, b, c, d, g1, g2, g3, rest);
  }

  /** A token followed by something that cannot continue it is the first token. */
  lemma FirstToken(d: string, rest: string)
    requires d != [] && AllIn(Word, d)
    requires rest != [] ==> !IsWord(rest[0])
    ensures d + rest != [] && IsWord((d + rest)[0])
    ensures |Runs(d + rest)| > 0 && Runs(d + rest)[0].token == d
  {
    RunLenOf(Word, d, rest);
    assert (d + rest)[0] == d[0];
    assert In(Word, d[0]);
    assert Token(d + rest) == d;
  }

  lemma FourTokens(zs: seq<Run>, rs: seq<Run>, ts: seq<string>, d: string)
    requires |zs| == 3 && |ts| == 3 && forall j | 0 <= j < 3 :: zs[j].token == ts[j]
    requires |rs| > 0 && rs[0].token == d
    ensures |zs + rs| >= 4 && Tokens((zs + rs)[..4]) == ts + [d]
  {
    var four := (zs + rs)[..4];
    assert four == zs + [rs[0]];
    assert Tokens(four)[3] == d;
  }

  /** The rest of a line after the fourth token is ignored, and lower-case codes are upper-cased. */
  lemma ParsesExtraWords()
    ensures ParseLine("US usd gb GBP extra") == Some(Request("US", "USD", "GB", "GBP"))
  {
    ParsesExtraWordsRaw();
    UpperExamples();
  }

  lemma ParsesExtraWordsRaw()
    ensures ParseLine("US usd gb GBP extra") == Some(Request(Upper("US"), Upper("usd"), Upper("gb"), Upper("GBP")))
  {
    ParseLineSpec("US", "usd", "gb", "GBP", " ", " ", " ", " extra");
    ExtraWordsLine();
  }

  lemma ExtraWordsLine()
    ensures Line(["US", "usd", "gb"], [" ", " ", " "]) + "GBP" + " extra" == "US usd gb GBP extra"
  {
    LineThree("US", "usd", "gb", " ", " ", " ");
    assert "US" + " " + "usd" + " " + "gb" + " " + "GBP" + " extra" == "US usd gb GBP extra";
  }

  lemma UpperExamples()
    ensures Upper("usd") == "USD" && Upper("gb") == "GB" && Upper("US") == "US" && Upper("GBP") == "GBP"
  {
    var u := Upper("usd");
    assert u[0] == 'U' && u[1] == 'S' && u[2] == 'D';
    var v := Upper("gb");
    assert v[0] == 'G' && v[1] == 'B';
  }

  /** A line of whitespace gives no match. */
  lemma RejectsBlankLine()
    ensures ParseLine(" ") == None
  {
    assert Token(" ") == [];
  }

  /** Three tokens are not enough. */
  lemma RejectsThreeTokens()
    ensures ParseLine("US USD GB") == None
  {
    LineThree("US", "USD", "GB", " ", " ", "");
    assert "US" + " " + "USD" + " " + "GB" + "" == "US USD GB";
    assert forall j | 0 <= j < 3 :: ["US", "USD", "GB"][j] != [] && AllIn(Word, ["US", "USD", "GB"][j]) &&
                                    AllIn(Space, [" ", " ", ""][j]);
    RunsOfLine(["US", "USD", "GB"], [" ", " ", ""]);
  }
}
