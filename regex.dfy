/**
 * The two regular expressions of the report engine, over the character
 * classes of `Text`:
 *
 *   the validator's  ^P(\nP)*$   with   P = (\w+)\s+(\w+)\s+(\w+)\s+(\w+)\s*
 *   the parser's     (\w+)\s+(\w+)\s+(\w+)\s+(\w+)   applied with re.match
 *
 * Each is a list of repetition items, and `Match(items, s, tail)` is a
 * backtracking matcher: it holds when some way of letting each item consume
 * a part of `s` leaves a remainder that `tail` accepts.  The lemmas here say
 * how one token and the whitespace after it are consumed; `Validator` and
 * `Parser` build their characterizations from them.
 */
module Regex {
  import opened Text

  /** `\w+`-like `Plus(c)` and `\s*`-like `Star(c)`. */
  datatype Item = Plus(c: Class) | Star(c: Class)

  /** What must follow the items of one group. */
  datatype Tail =
    | Repeat   // `(\nP)*$`: further groups, each after a line feed, then the end
    | Rest     // nothing: `re.match` matches a prefix and ignores the rest

  /** `P` as items: four word runs, whitespace between them, optional whitespace after. */
  const Group: seq<Item> :=
    [Plus(Word), Plus(Space), Plus(Word), Plus(Space), Plus(Word), Plus(Space), Plus(Word), Star(Space)]

  /** Python's `$` without MULTILINE: the end of the text, or just before a final line feed. */
  predicate AtEnd(s: string) {
    s == [] || s == ['\n']
  }

  predicate Match(items: seq<Item>, s: string, tail: Tail)
    decreases |s|, |items|
  {
    if items == [] then
      match tail
      case Rest => true
      case Repeat => AtEnd(s) || (|s| > 0 && s[0] == '\n' && Match(Group, s[1..], Repeat))
    else
      match items[0]
      case Plus(c) => |s| > 0 && In(c, s[0]) && Match([Star(c)] + items[1..], s[1..], tail)
      case Star(c) => Match(items[1..], s, tail) || (|s| > 0 && In(c, s[0]) && Match(items, s[1..], tail))
  }

  /** A `Plus(c)` item consumes at least one character of class `c`. */
  lemma PlusNeeds(c: Class, items: seq<Item>, s: string, tail: Tail)
    requires |items| > 0 && items[0] == Plus(c)
    ensures Match(items, s, tail) ==> |s| > 0 && In(c, s[0])
  {
  }

  /** After the last token, a non-empty remainder that matches must start with whitespace. */
  lemma TrailNeeds(s: string)
    requires |s| > 0 && IsWord(s[0])
    ensures !Match([Star(Space)], s, Repeat)
  {
    assert [Star(Space)][1..] == [];
    assert !Match([], s, Repeat) by {
      assert Group[0] == Plus(Word);
    }
  }

  /**
   * A `Star(c)` item in front of `rest` over a maximal run of length `n` of
   * class `c`, none of whose proper positions lets `rest` match, consumes
   * the whole run.
   */
  lemma {:induction false} StarSkip(c: Class, rest: seq<Item>, s: string, n: nat, tail: Tail)
    requires n <= |s| && AllIn(c, s[..n]) && (n < |s| ==> !In(c, s[n]))
    requires forall i | 0 <= i < n :: !Match(rest, s[i..], tail)
    ensures Match([Star(c)] + rest, s, tail) <==> Match(rest, s[n..], tail)
    decreases n
  {
    assert ([Star(c)] + rest)[1..] == rest;
    if n == 0 {
    } else {
      assert s[0] == s[..n][0];
      assert !Match(rest, s[0..], tail);
      assert s[0..] == s;
      var t := s[1..];
      assert t[..n - 1] == s[1..n];
      forall i | 0 <= i < n - 1 ensures !Match(rest, t[i..], tail) {
        assert t[i..] == s[i + 1..];
      }
      StarSkip(c, rest, t, n - 1, tail);
      assert t[n - 1..] == s[n..];
    }
  }

  /** The same for a `Plus(c)` item, which in addition needs the run to be non-empty. */
  lemma PlusSkip(c: Class, rest: seq<Item>, s: string, n: nat, tail: Tail)
    requires n <= |s| && AllIn(c, s[..n]) && (n < |s| ==> !In(c, s[n]))
    requires forall i | 0 <= i < n :: !Match(rest, s[i..], tail)
    ensures Match([Plus(c)] + rest, s, tail) <==> n > 0 && Match(rest, s[n..], tail)
  {
    assert ([Plus(c)] + rest)[1..] == rest;
    if n > 0 {
      assert s[0] == s[..n][0];
      var t := s[1..];
      assert t[..n - 1] == s[1..n];
      forall i | 0 <= i < n - 1 ensures !Match(rest, t[i..], tail) {
        assert t[i..] == s[i + 1..];
      }
      StarSkip(c, rest, t, n - 1, tail);
      assert t[n - 1..] == s[n..];
    }
  }

  /**
   * The trailing `\s*` of a group over a maximal whitespace run of length
   * `m`: either the text ends there, or the run ends in the line feed that
   * separates this group from the next.
   */
  lemma {:induction false} TrailStep(u: string, m: nat)
    requires m <= |u| && AllIn(Space, u[..m]) && (m < |u| ==> !IsSpace(u[m]))
    requires m < |u| ==> IsWord(u[m])
    ensures Match([Star(Space)], u, Repeat) <==>
            m == |u| || (m > 0 && u[m - 1] == '\n' && Match(Group, u[m..], Repeat))
    decreases m
  {
    assert [Star(Space)][1..] == [];
    if m == 0 {
      if |u| > 0 {
        assert !Match([], u, Repeat);
      }
    } else {
      assert IsSpace(u[..m][0]);
      TrailStep(u[1..], m - 1) by {
        assert u[1..][..m - 1] == u[1..m];
        if m < |u| { assert u[1..][m - 1] == u[m]; }
      }
      assert u[1..][m - 1..] == u[m..];
      if m < |u| {
        assert |u| >= 2;
        if m > 1 {
          assert IsSpace(u[..m][1]);
          PlusNeeds(Word, Group, u[1..], Repeat);
        }
      }
    }
  }

  /** Every proper suffix of a word run starts with a word character. */
  lemma InsideWordRun(s: string, i: nat)
    requires i < RunLen(Word, s)
    ensures |s[i..]| > 0 && IsWord(s[i..][0])
  {
    assert s[i..][0] == s[..RunLen(Word, s)][i];
  }

  /**
   * The items of the expression from the start of its token `k` (0-based) of
   * a group on: with the validator's trailing `\s*` and its continuation
   * after the fourth token, or with nothing after it for the parser.
   */
  function FromToken(k: nat, tail: Tail): (items: seq<Item>)
    requires k < 4
    ensures |items| > 0 && items[0] == Plus(Word)
    decreases 3 - k
  {
    if k < 3 then [Plus(Word), Plus(Space)] + FromToken(k + 1, tail)
    else
      match tail
      case Repeat => [Plus(Word), Star(Space)]
      case Rest => [Plus(Word)]
  }

  lemma GroupIsFromToken()
    ensures Group == FromToken(0, Repeat)
  {
  }

  /**
   * Tokens 1 to 3 of a group: the token and the whitespace after it are
   * consumed whole, and the whitespace must not be empty.
   */
  lemma TokenStep(s: string, k: nat, tail: Tail)
    requires k < 3 && |s| > 0 && IsWord(s[0])
    ensures Match(FromToken(k, tail), s, tail) <==>
            Gap(s) != [] && Match(FromToken(k + 1, tail), After(s), tail)
  {
    var t := FromToken(k + 1, tail);
    assert FromToken(k, tail) == [Plus(Word)] + ([Plus(Space)] + t);
    WordRunStep(s, [Plus(Space)] + t, tail);
    var s1 := s[RunLen(Word, s)..];
    SpaceRunStep(s1, t, tail);
    assert |Gap(s)| == RunLen(Space, s1);
    assert s1[RunLen(Space, s1)..] == After(s);
  }

  /** A `\w+` in front of a `\s+` consumes the whole word run. */
  lemma WordRunStep(s: string, u: seq<Item>, tail: Tail)
    requires |u| > 0 && u[0] == Plus(Space)
    ensures Match([Plus(Word)] + u, s, tail) <==> RunLen(Word, s) > 0 && Match(u, s[RunLen(Word, s)..], tail)
  {
    var n := RunLen(Word, s);
    forall i | 0 <= i < n ensures !Match(u, s[i..], tail) {
      InsideWordRun(s, i);
      PlusNeeds(Space, u, s[i..], tail);
    }
    PlusSkip(Word, u, s, n, tail);
  }

  /** A `\s+` in front of a `\w+` consumes the whole whitespace run. */
  lemma SpaceRunStep(s: string, t: seq<Item>, tail: Tail)
    requires |t| > 0 && t[0] == Plus(Word)
    ensures Match([Plus(Space)] + t, s, tail) <==> RunLen(Space, s) > 0 && Match(t, s[RunLen(Space, s)..], tail)
  {
    var m := RunLen(Space, s);
    forall i | 0 <= i < m ensures !Match(t, s[i..], tail) {
      assert s[i..][0] == s[..m][i];
      PlusNeeds(Word, t, s[i..], tail);
    }
    PlusSkip(Space, t, s, m, tail);
  }
}
