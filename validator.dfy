/**
 * The input validator `check_errors_in_input_text`: one anchored regular
 * expression over the whole text block,
 *
 *   ^P(\nP)*$   with   P = (\w+)\s+(\w+)\s+(\w+)\s+(\w+)\s*
 *
 * searched without MULTILINE, so `^` is the start of the text and `$` is its
 * end or the position just before a final line feed.  The expression is
 * modelled as a list of repetition items over the two character classes and
 * a backtracking matcher: `Match(items, s, tail)` holds when some way of
 * letting each item consume a part of `s` leaves a remainder that `tail`
 * accepts.  The theorem `AcceptsIff` then says which texts it accepts in
 * terms of word runs: because `\s` matches a line feed, a line is not what
 * the expression counts.
 */
module Validator {
  import opened Text
  import opened Regex

  /** The search of `^P(\nP)*$` over the whole text succeeds. */
  predicate Accepts(text: string) {
    Match(Group, text, Repeat)
  }

  predicate EndsWithNewline(gap: string) {
    |gap| > 0 && gap[|gap| - 1] == '\n'
  }

  /**
   * What the expression accepts, stated over tokens: the text holds only
   * word characters and whitespace and starts with a word character; its
   * number of tokens is a positive multiple of four; and the whitespace
   * after every fourth token that is not the last ends in a line feed.
   * Any other whitespace, line feeds included, may separate tokens, and any
   * whitespace may trail.
   */
  predicate WellFormed(text: string) {
    OnlyWordOrSpace(text) && |text| > 0 && IsWord(text[0]) &&
    var rs := Runs(text);
    |rs| > 0 && |rs| % 4 == 0 &&
    forall j | 0 <= j < |rs| - 1 && j % 4 == 3 :: EndsWithNewline(rs[j].gap)
  }

  // ---------------------------------------------------------------------
  // Proof of the characterization

  /** Within a group, decide whether the first two tokens matter only through `Runs`. */
  predicate GroupsOK(rs: seq<Run>, k: nat)
    requires k < 4
  {
    |rs| > 0 &&
    if |rs| == 1 then k == 3
    else if k < 3 then GroupsOK(rs[1..], k + 1)
    else EndsWithNewline(rs[0].gap) && GroupsOK(rs[1..], 0)
  }

  lemma {:induction false} GroupsOKIff(rs: seq<Run>, k: nat)
    requires k < 4
    ensures GroupsOK(rs, k) <==>
            |rs| > 0 && (|rs| + k) % 4 == 0 &&
            forall j | 0 <= j < |rs| - 1 && (j + k) % 4 == 3 :: EndsWithNewline(rs[j].gap)
    decreases |rs|
  {
    if |rs| > 1 {
      var k' := if k < 3 then k + 1 else 0;
      GroupsOKIff(rs[1..], k');
      assert (|rs| - 1 + k') % 4 == (|rs| + k) % 4;
      forall j | 0 <= j < |rs| - 2
        ensures (j + k') % 4 == (j + 1 + k) % 4 && rs[1..][j] == rs[j + 1]
      {
      }
    }
  }

  lemma RunFacts(s: string)
    requires OnlyWordOrSpace(s) && |s| > 0 && IsWord(s[0])
    ensures Runs(s) == [Run(Token(s), Gap(s))] + Runs(After(s))
    ensures |After(s)| < |s| && OnlyWordOrSpace(After(s))
    ensures After(s) != [] ==> Gap(s) != [] && IsWord(After(s)[0])
  {
    var k := |Token(s)| + |Gap(s)|;
    assert |Token(s)| > 0;
    var rest := After(s);
    forall i | 0 <= i < |rest| ensures IsWord(rest[i]) || IsSpace(rest[i]) {
      assert rest[i] == s[k + i];
    }
    if rest != [] {
      assert rest[0] == s[k];
    }
  }

  /** Token 4 of a group: the text ends, or the whitespace after it ends in the separating line feed. */
  lemma LastTokenStep(s: string)
    requires OnlyWordOrSpace(s) && |s| > 0 && IsWord(s[0])
    ensures Match([Plus(Word), Star(Space)], s, Repeat) <==>
            After(s) == [] || (EndsWithNewline(Gap(s)) && Match(Group, After(s), Repeat))
  {
    assert [Plus(Word), Star(Space)] == [Plus(Word)] + [Star(Space)];
    LastWordRun(s);
    LastTrail(s);
  }

  /** The trailing `\s*` after the last token, in terms of the gap after that token and what follows it. */
  lemma LastTrail(s: string)
    requires OnlyWordOrSpace(s)
    ensures Match([Star(Space)], s[RunLen(Word, s)..], Repeat) <==>
            After(s) == [] || (EndsWithNewline(Gap(s)) && Match(Group, After(s), Repeat))
  {
    var s1 := s[RunLen(Word, s)..];
    var m := RunLen(Space, s1);
    GapAfter(s);
    TrailStep(s1, m);
    if m > 0 {
      assert s1[..m][m - 1] == s1[m - 1];
    }
  }

  /** The gap and the rest after the first token, as positions in what follows the token. */
  lemma GapAfter(s: string)
    requires OnlyWordOrSpace(s)
    ensures var s1 := s[RunLen(Word, s)..];
            var m := RunLen(Space, s1);
            Gap(s) == s1[..m] && After(s) == s1[m..] && (m < |s1| ==> IsWord(s1[m]))
  {
    var n := RunLen(Word, s);
    var s1 := s[n..];
    var m := RunLen(Space, s1);
    assert Token(s) == s[..n];
    assert Gap(s) == s1[..m];
    assert After(s) == s1[m..];
    if m < |s1| {
      assert s1[m] == s[n + m];
    }
  }

  /** The last `\w+` of a group consumes the whole word run. */
  lemma LastWordRun(s: string)
    ensures Match([Plus(Word)] + [Star(Space)], s, Repeat) <==>
            RunLen(Word, s) > 0 && Match([Star(Space)], s[RunLen(Word, s)..], Repeat)
  {
    var n := RunLen(Word, s);
    forall i | 0 <= i < n ensures !Match([Star(Space)], s[i..], Repeat) {
      InsideWordRun(s, i);
      TrailNeeds(s[i..]);
    }
    PlusSkip(Word, [Star(Space)], s, n, Repeat);
  }

  /**
   * From the start of token `k` (0-based) of a group, the rest of the
   * expression matches exactly when the runs from here on are grouped as
   * `GroupsOK` says.
   */
  lemma {:induction false} GroupMatch(s: string, k: nat)
    requires k < 4 && OnlyWordOrSpace(s) && |s| > 0 && IsWord(s[0])
    ensures Match(FromToken(k, Repeat), s, Repeat) <==> GroupsOK(Runs(s), k)
    decreases |s|
  {
    RunFacts(s);
    var rest := After(s);
    if k < 3 {
      TokenStep(s, k, Repeat);
      if rest != [] {
        GroupMatch(rest, k + 1);
      } else {
        PlusNeeds(Word, FromToken(k + 1, Repeat), rest, Repeat);
      }
    } else {
      LastTokenStep(s);
      if rest != [] {
        GroupMatch(rest, 0);
        GroupIsFromToken();
      }
    }
  }

  /** Only word characters and whitespace can be consumed by the expression. */
  lemma {:induction false} MatchOnlyWordOrSpace(items: seq<Item>, s: string)
    requires Match(items, s, Repeat)
    ensures OnlyWordOrSpace(s)
    decreases |s|, |items|
  {
    if items == [] {
      if !AtEnd(s) {
        MatchOnlyWordOrSpace(Group, s[1..]);
        assert forall i | 1 <= i < |s| :: s[i] == s[1..][i - 1];
      }
    } else {
      match items[0]
      case Plus(c) =>
        MatchOnlyWordOrSpace([Star(c)] + items[1..], s[1..]);
        assert forall i | 1 <= i < |s| :: s[i] == s[1..][i - 1];
        assert In(c, s[0]);
      case Star(c) =>
        if Match(items[1..], s, Repeat) {
          MatchOnlyWordOrSpace(items[1..], s);
        } else {
          MatchOnlyWordOrSpace(items, s[1..]);
          assert forall i | 1 <= i < |s| :: s[i] == s[1..][i - 1];
          assert In(c, s[0]);
        }
    }
  }

  /** The validator accepts exactly the well-formed texts. */
  lemma AcceptsIff(text: string)
    ensures Accepts(text) <==> WellFormed(text)
  {
    if OnlyWordOrSpace(text) && |text| > 0 && IsWord(text[0]) {
      AcceptsByGroups(text);
      GroupsFromStart(Runs(text));
    } else if Accepts(text) {
      AcceptedStart(text);
    }
  }

  /** From the first token of a group on: a positive multiple of four, and a line feed after each fourth token but the last. */
  lemma GroupsFromStart(rs: seq<Run>)
    ensures GroupsOK(rs, 0) <==>
            |rs| > 0 && |rs| % 4 == 0 && forall j | 0 <= j < |rs| - 1 && j % 4 == 3 :: EndsWithNewline(rs[j].gap)
  {
    GroupsOKIff(rs, 0);
  }

  /** A text made of word characters and whitespace that starts with a word character is accepted as its runs group. */
  lemma AcceptsByGroups(text: string)
    requires OnlyWordOrSpace(text) && |text| > 0 && IsWord(text[0])
    ensures Accepts(text) <==> GroupsOK(Runs(text), 0)
  {
    GroupMatch(text, 0);
    GroupIsFromToken();
  }

  /** An accepted text holds only word characters and whitespace and starts with a word character. */
  lemma AcceptedStart(text: string)
    requires Accepts(text)
    ensures OnlyWordOrSpace(text) && |text| > 0 && IsWord(text[0])
  {
    MatchOnlyWordOrSpace(Group, text);
    PlusNeeds(Word, Group, text, Repeat);
  }

  /**
   * `check_errors_in_input_text`: true when the text is to be rejected with
   * the syntax-error message, which is exactly when it is not well formed.
   */
  function HasErrors(text: string): (errors: bool)
    ensures errors <==> !WellFormed(text)
  {
    AcceptsIff(text);
    !Accepts(text)
  }

  // ---------------------------------------------------------------------
  // What the validator accepts and rejects

  /**
   * For a text spelled by word tokens `ts` separated by non-empty
   * whitespace `gs`: it is accepted exactly when the number of tokens is a
   * positive multiple of four and the whitespace after every fourth token
   * but the last ends in a line feed.
   */
  lemma AcceptsLine(ts: seq<string>, gs: seq<string>)
    requires |ts| == |gs|
    requires forall j | 0 <= j < |ts| :: ts[j] != [] && AllIn(Word, ts[j]) && AllIn(Space, gs[j])
    requires forall j | 0 <= j < |ts| - 1 :: gs[j] != []
    ensures Accepts(Line(ts, gs)) <==>
            |ts| > 0 && |ts| % 4 == 0 && forall j | 0 <= j < |ts| - 1 && j % 4 == 3 :: EndsWithNewline(gs[j])
  {
    var text := Line(ts, gs);
    RunsOfLine(ts, gs);
    AcceptsIff(text);
    var rs := Runs(text);
    assert forall j | 0 <= j < |rs| :: rs[j].gap == gs[j];
  }

  /**
   * One group of four tokens is accepted whatever whitespace separates the
   * tokens (a line feed as well as a blank or a tab) and whatever
   * whitespace trails.
   */
  lemma AcceptsGroup(a: string, b: string, c: string, d: string, g1: string, g2: string, g3: string, g4: string)
    requires a != [] && b != [] && c != [] && d != []
    requires AllIn(Word, a) && AllIn(Word, b) && AllIn(Word, c) && AllIn(Word, d)
    requires g1 != [] && g2 != [] && g3 != []
    requires AllIn(Space, g1) && AllIn(Space, g2) && AllIn(Space, g3) && AllIn(Space, g4)
    ensures Accepts(Line([a, b, c, d], [g1, g2, g3, g4]))
  {
    AcceptsLine([a, b, c, d], [g1, g2, g3, g4]);
  }

  /**
   * Two groups of four tokens, one after the other: accepted exactly when
   * the whitespace between them ends in a line feed.
   */
  lemma AcceptsTwoGroups(ts1: seq<string>, gs1: seq<string>, ts2: seq<string>, gs2: seq<string>)
    requires |ts1| == |gs1| == |ts2| == |gs2| == 4
    requires forall j | 0 <= j < 4 :: ts1[j] != [] && AllIn(Word, ts1[j]) && AllIn(Space, gs1[j]) && gs1[j] != []
    requires forall j | 0 <= j < 4 :: ts2[j] != [] && AllIn(Word, ts2[j]) && AllIn(Space, gs2[j])
    requires forall j | 0 <= j < 3 :: gs2[j] != []
    ensures Accepts(Line(ts1, gs1) + Line(ts2, gs2)) <==> EndsWithNewline(gs1[3])
  {
    LineAppend(ts1, gs1, ts2, gs2);
    var ts, gs := ts1 + ts2, gs1 + gs2;
    TwoGroupsShape(ts1, gs1, ts2, gs2);
    AcceptsLine(ts, gs);
    assert |ts| == 8 && gs[3] == gs1[3];
    OneBreak(gs);
  }

  /** Between two groups of four there is one group end, after the fourth token. */
  lemma OneBreak(gs: seq<string>)
    requires |gs| == 8
    ensures (forall j | 0 <= j < 7 && j % 4 == 3 :: EndsWithNewline(gs[j])) <==> EndsWithNewline(gs[3])
  {
    if EndsWithNewline(gs[3]) {
      forall j | 0 <= j < 7 && j % 4 == 3 ensures EndsWithNewline(gs[j]) {
        OnlyThird(j);
      }
    }
  }

  lemma TwoGroupsShape(ts1: seq<string>, gs1: seq<string>, ts2: seq<string>, gs2: seq<string>)
    requires |ts1| == |gs1| == |ts2| == |gs2| == 4
    requires forall j | 0 <= j < 4 :: ts1[j] != [] && AllIn(Word, ts1[j]) && AllIn(Space, gs1[j]) && gs1[j] != []
    requires forall j | 0 <= j < 4 :: ts2[j] != [] && AllIn(Word, ts2[j]) && AllIn(Space, gs2[j])
    requires forall j | 0 <= j < 3 :: gs2[j] != []
    ensures forall j | 0 <= j < 8 :: (ts1 + ts2)[j] != [] && AllIn(Word, (ts1 + ts2)[j]) && AllIn(Space, (gs1 + gs2)[j])
    ensures forall j | 0 <= j < 7 :: (gs1 + gs2)[j] != []
  {
    var ts, gs := ts1 + ts2, gs1 + gs2;
    forall j | 0 <= j < 8 ensures ts[j] != [] && AllIn(Word, ts[j]) && AllIn(Space, gs[j]) {
      if j < 4 { assert ts[j] == ts1[j] && gs[j] == gs1[j]; } else { assert ts[j] == ts2[j - 4] && gs[j] == gs2[j - 4]; }
    }
    forall j | 0 <= j < 7 ensures gs[j] != [] {
      if j < 4 { assert gs[j] == gs1[j]; } else { assert gs[j] == gs2[j - 4]; }
    }
  }

  /** Serves `OneBreak`: among the gaps of two groups, only index 3 is a group break. */
  lemma OnlyThird(j: int)
    requires 0 <= j < 7 && j % 4 == 3
    ensures j == 3
  {
  }

  /** Four tokens and one more: never accepted, whatever whitespace separates them. */
  lemma RejectsFifthToken(ts: seq<string>, gs: seq<string>, e: string, g: string)
    requires |ts| == |gs| == 4
    requires forall j | 0 <= j < 4 :: ts[j] != [] && AllIn(Word, ts[j]) && AllIn(Space, gs[j]) && gs[j] != []
    requires e != [] && AllIn(Word, e) && AllIn(Space, g)
    ensures !Accepts(Line(ts, gs) + e + g)
  {
    LineOne(e, g);
    LineAppend(ts, gs, [e], [g]);
    var ts', gs' := ts + [e], gs + [g];
    assert forall j | 0 <= j < 5 :: ts'[j] == (if j < 4 then ts[j] else e);
    assert forall j | 0 <= j < 5 :: gs'[j] == (if j < 4 then gs[j] else g);
    AcceptsLine(ts', gs');
    assert Line(ts, gs) + e + g == Line(ts', gs');
  }

  lemma AcceptsOneLine()
    ensures Accepts("US USD GB GBP")
  {
    assert "US" + " " + "USD" + " " + "GB" + " " + "GBP" + "" == "US USD GB GBP";
    LineFour("US", "USD", "GB", "GBP", " ", " ", " ", "");
    AcceptsGroup("US", "USD", "GB", "GBP", " ", " ", " ", "");
  }

  /** Trailing whitespace, blank lines included, is accepted. */
  lemma AcceptsTrailingBlankLines()
    ensures Accepts("US USD GB GBP\t\n\n")
  {
    assert "US" + " " + "USD" + " " + "GB" + " " + "GBP" + "\t\n\n" == "US USD GB GBP\t\n\n";
    LineFour("US", "USD", "GB", "GBP", " ", " ", " ", "\t\n\n");
    AcceptsGroup("US", "USD", "GB", "GBP", " ", " ", " ", "\t\n\n");
  }

  lemma AcceptsTwoLines()
    ensures Accepts("US USD GB GBP\nCA CAD FR EUR")
  {
    var us, ca := ["US", "USD", "GB", "GBP"], ["CA", "CAD", "FR", "EUR"];
    var gs1, gs2 := [" ", " ", " ", "\n"], [" ", " ", " ", ""];
    ExampleTokens();
    ExampleFirst("\n");
    ExampleSecond();
    assert "US USD GB GBP" + "\n" + "CA CAD FR EUR" == "US USD GB GBP\nCA CAD FR EUR";
    AcceptsTwoGroups(us, gs1, ca, gs2);
  }

  /** The tokens of the two lines of the examples. */
  lemma ExampleTokens()
    ensures var us, ca := ["US", "USD", "GB", "GBP"], ["CA", "CAD", "FR", "EUR"];
      forall j | 0 <= j < 4 :: us[j] != [] && AllIn(Word, us[j]) && ca[j] != [] && AllIn(Word, ca[j])
  {
  }

  /** The first line of the examples, followed by the whitespace `g`. */
  lemma ExampleFirst(g: string)
    ensures Line(["US", "USD", "GB", "GBP"], [" ", " ", " ", g]) == "US USD GB GBP" + g
  {
    LineFour("US", "USD", "GB", "GBP", " ", " ", " ", g);
    assert "US" + " " + "USD" + " " + "GB" + " " + "GBP" == "US USD GB GBP";
  }

  /** The second line of the examples. */
  lemma ExampleSecond()
    ensures Line(["CA", "CAD", "FR", "EUR"], [" ", " ", " ", ""]) == "CA CAD FR EUR"
  {
    LineFour("CA", "CAD", "FR", "EUR", " ", " ", " ", "");
    assert "CA" + " " + "CAD" + " " + "FR" + " " + "EUR" + "" == "CA CAD FR EUR";
  }

  /** A group may span lines: the line feed counts as whitespace between its tokens. */
  lemma AcceptsGroupAcrossLines()
    ensures Accepts("US USD\nGB GBP")
  {
    assert "US" + " " + "USD" + "\n" + "GB" + " " + "GBP" + "" == "US USD\nGB GBP";
    LineFour("US", "USD", "GB", "GBP", " ", "\n", " ", "");
    AcceptsGroup("US", "USD", "GB", "GBP", " ", "\n", " ", "");
  }

  /** Empty text, whitespace only, and leading whitespace are rejected. */
  lemma RejectsBlankOrIndented()
    ensures !Accepts("") && !Accepts("   ") && !Accepts(" US USD GB GBP")
  {
    AcceptsIff("");
    AcceptsIff("   ");
    AcceptsIff(" US USD GB GBP");
  }

  lemma RejectsTwoTokens()
    ensures !Accepts("US USD")
  {
    LineOne("US", " ");
    LineOne("USD", "");
    LineAppend(["US"], [" "], ["USD"], [""]);
    assert "US" + " " + ("USD" + "") == "US USD";
    AcceptsLine(["US", "USD"], [" ", ""]);
  }

  lemma RejectsFiveTokens()
    ensures !Accepts("US USD GB GBP EUR")
  {
    LineFour("US", "USD", "GB", "GBP", " ", " ", " ", " ");
    assert "US" + " " + "USD" + " " + "GB" + " " + "GBP" + " " + "EUR" + "" == "US USD GB GBP EUR";
    RejectsFifthToken(["US", "USD", "GB", "GBP"], [" ", " ", " ", " "], "EUR", "");
  }

  /** Eight tokens on one line: the fourth is not followed by a line feed. */
  lemma RejectsTwoGroupsOnOneLine()
    ensures !Accepts("US USD GB GBP CA CAD FR EUR")
  {
    var us, ca := ["US", "USD", "GB", "GBP"], ["CA", "CAD", "FR", "EUR"];
    var gs1, gs2 := [" ", " ", " ", " "], [" ", " ", " ", ""];
    ExampleTokens();
    ExampleFirst(" ");
    ExampleSecond();
    assert "US USD GB GBP" + " " + "CA CAD FR EUR" == "US USD GB GBP CA CAD FR EUR";
    AcceptsTwoGroups(us, gs1, ca, gs2);
  }
}
