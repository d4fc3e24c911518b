/**
 * The report run of `Main`: `init_excel` writes the header row and
 * appends the checked provider pages to `SCRAPING_REQUESTS`;
 * `generate_report` then walks the lines of the input, fetches one rate
 * per selected page for every non-empty line and writes the row at
 * `line_index + 1`; `update_progress` moves the progress counter.  The
 * worksheet is a map from (row, column) to the cell written there.
 *
 * The functions below say what a run produces; the class `ReportWindow`
 * of `Window` does it step by step and is proved to agree with them.
 */
module Report {
  import opened Wrappers
  import opened Text
  import opened Validator
  import opened Parser
  import opened Providers
  import opened Progress

  /** No format, `default_format` (columns 0 to 3 of the header) or `link_format`. */
  datatype Format = Plain | DefaultFormat | LinkFormat

  /** What a cell holds: a code or header name, or a rounded rate. */
  datatype Value = Label(text: string) | Number(x: real)

  datatype Cell = Cell(value: Value, format: Format)

  type Grid = map<(int, int), Cell>

  const Headers: seq<string> := ["Source Country Code", "Source Currency Code",
                                 "Destination Country Code", "Destination Currency Code"]

  /** One of the ten page checkboxes: its text is a page address. */
  datatype Checkbox = Checkbox(text: string, checked: bool)

  /** The texts of the checked boxes, in box order. */
  function Checked(boxes: seq<Checkbox>): (pages: seq<string>)
    ensures |pages| <= |boxes|
  {
    if boxes == [] then []
    else
      var init := Checked(boxes[..|boxes| - 1]);
      var last := boxes[|boxes| - 1];
      if last.checked then init + [last.text] else init
  }

  /** The pages are exactly the texts of the checked boxes. */
  lemma {:induction false} CheckedMembers(boxes: seq<Checkbox>)
    ensures forall j | 0 <= j < |boxes| && boxes[j].checked :: boxes[j].text in Checked(boxes)
    ensures forall t | t in Checked(boxes) :: exists j | 0 <= j < |boxes| :: boxes[j].checked && boxes[j].text == t
  {
    if boxes != [] {
      var init := boxes[..|boxes| - 1];
      CheckedMembers(init);
      assert forall j | 0 <= j < |init| :: init[j] == boxes[j];
    }
  }

  /** Checking boxes in two runs of the loop gives the pages of the first run, then the second's. */
  lemma {:induction false} CheckedAppend(a: seq<Checkbox>, b: seq<Checkbox>)
    ensures Checked(a + b) == Checked(a) + Checked(b)
    decreases |b|
  {
    if b == [] {
      assert a + b == a;
    } else {
      var b', x := b[..|b| - 1], b[|b| - 1];
      CheckedAppend(a, b');
      assert (a + b)[..|a + b| - 1] == a + b';
      assert (a + b)[|a + b| - 1] == x;
      if x.checked {
        AppendAssoc(Checked(a), Checked(b'), [x.text]);
      }
    }
  }

  /** The header cell of column `c`: the first four columns in the default format, the rest as links. */
  function HeaderCell(c: int, name: string): Cell {
    Cell(Label(name), if c < 4 then DefaultFormat else LinkFormat)
  }

  /** Row 0 as the header loop writes it: the four column names, then one page address per selected page. */
  function HeaderRow(names: seq<string>): (cells: seq<Cell>)
    ensures |cells| == |names|
    ensures forall c | 0 <= c < |names| :: cells[c].value == Label(names[c])
    ensures forall c | 0 <= c < |names| :: cells[c].format == (if c < 4 then DefaultFormat else LinkFormat)
  {
    seq(|names|, c requires 0 <= c < |names| => HeaderCell(c, names[c]))
  }

  /** The cells of one row. */
  function RowMap(row: int, cells: seq<Cell>): Grid {
    map c | 0 <= c < |cells| :: (row, c) := cells[c]
  }

  /** Why a run stops before it closes the workbook. */
  datatype Crash =
    | ZeroDivision           // no page selected
    | NoMatch(line: string)  // `m.group` on a failed match
    | UnknownPage(page: string)  // `KeyError` in `SERVICE_MAPPING`
    | MissingApi(page: string)   // `eval` of an API function `Services` lacks

  /** What the report loop does with one selected page. */
  datatype Call = Fetch(url: string) | Fail(crash: Crash)

  function PageCall(page: string, r: Request): Call {
    match Lookup(page)
    case None => Fail(UnknownPage(page))
    case Some(p) =>
      match Url(p, r)
      case None => Fail(MissingApi(page))
      case Some(u) => Fetch(u)
  }

  /** The fetches of one line so far: URLs requested, rates obtained, and the crash that stopped them. */
  datatype Fetches = Fetches(urls: seq<string>, rates: seq<real>, crash: Option<Crash>)

  /**
   * The first `k` selected pages for one line, where the `n`-th request
   * of the session is answered by `answer(n, url)`.
   */
  function RowFetches(pages: seq<string>, r: Request, answer: (nat, string) -> Option<real>, n: nat, k: nat): (f: Fetches)
    requires k <= |pages|
    ensures |f.urls| == |f.rates| <= k
    ensures f.crash.None? ==> |f.urls| == k
  {
    if k == 0 then Fetches([], [], None)
    else
      var f := RowFetches(pages, r, answer, n, k - 1);
      if f.crash.Some? then f
      else match PageCall(pages[k - 1], r)
        case Fail(c) => f.(crash := Some(c))
        case Fetch(u) => Fetches(f.urls + [u], f.rates + [FailSoft(answer(n + |f.urls|, u))], None)
  }

  /** The `rates` list of `generate_report`: the four codes, then one rate per page. */
  function Values(r: Request, rates: seq<real>): (vs: seq<Value>) {
    [Label(r.srcCountry), Label(r.srcCurrency), Label(r.dstCountry), Label(r.dstCurrency)] +
    seq(|rates|, j requires 0 <= j < |rates| => Number(rates[j]))
  }

  /** The 2-decimal rounding applied to a rate; `round` stands for `float(format(float(x), ".2f"))`. */
  function Rounded(v: Value, round: real -> real): Value {
    match v
    case Number(x) => Number(round(x))
    case Label(_) => v
  }

  /** What the cell loop writes: the codes as they are, every later value rounded, none formatted. */
  function Written(vs: seq<Value>, round: real -> real): (cells: seq<Cell>)
    ensures |cells| == |vs|
  {
    seq(|vs|, c requires 0 <= c < |vs| => if c < 4 then Cell(vs[c], Plain) else Cell(Rounded(vs[c], round), Plain))
  }

  /** The cells written for one line, at worksheet row `index`. */
  datatype RowWrite = RowWrite(index: int, cells: seq<Cell>)

  /** The rows written, the URLs fetched and the crash, if any, of a run so far. */
  datatype Sheet = Sheet(rows: seq<RowWrite>, calls: seq<string>, crash: Option<Crash>)

  /** The worksheet cells the rows put there; a later write to a cell wins. */
  function GridOf(ws: seq<RowWrite>): Grid {
    if ws == [] then map[]
    else GridOf(ws[..|ws| - 1]) + RowMap(ws[|ws| - 1].index, ws[|ws| - 1].cells)
  }

  /**
   * One pass of the report loop: an empty line is skipped, any other line
   * is parsed, fetched for every page and written at `row`.
   */
  function LineStep(s: Sheet, line: string, row: int, pages: seq<string>, answer: (nat, string) -> Option<real>,
                    n0: nat, round: real -> real): Sheet
  {
    if s.crash.Some? || line == [] then s
    else match ParseLine(line)
      case None => s.(crash := Some(NoMatch(line)))
      case Some(r) => RequestStep(s, r, row, pages, answer, n0, round)
  }

  /** The pass of the report loop for a parsed line: fetch every page, then write the row unless a page failed. */
  function RequestStep(s: Sheet, r: Request, row: int, pages: seq<string>, answer: (nat, string) -> Option<real>,
                       n0: nat, round: real -> real): Sheet
  {
    var f := RowFetches(pages, r, answer, n0 + |s.calls|, |pages|);
    if f.crash.Some? then Sheet(s.rows, s.calls + f.urls, f.crash)
    else Sheet(s.rows + [RowWrite(row, Written(Values(r, f.rates), round))], s.calls + f.urls, None)
  }

  /** The report loop over the first `k` lines; line `i` goes to row `i + 1`. */
  function RunLines(lines: seq<string>, pages: seq<string>, answer: (nat, string) -> Option<real>, n0: nat,
                    round: real -> real, k: nat): (s: Sheet)
    requires k <= |lines|
  {
    if k == 0 then Sheet([], [], None)
    else LineStep(RunLines(lines, pages, answer, n0, round, k - 1), lines[k - 1], k, pages, answer, n0, round)
  }

  /** A whole run of `generate_report` on `text` with the pages in `SCRAPING_REQUESTS`. */
  function Generate(text: string, pages: seq<string>, answer: (nat, string) -> Option<real>, n0: nat,
                    round: real -> real): Sheet
  {
    var lines := Lines(text);
    if Percentage(|lines|, |pages|).None? then Sheet([], [], Some(ZeroDivision))
    else RunLines(lines, pages, answer, n0, round, |lines|)
  }

  /** The number of non-empty lines among `lines`. */
  function NonEmpty(lines: seq<string>): (n: nat)
    ensures n <= |lines|
  {
    if lines == [] then 0
    else NonEmpty(lines[..|lines| - 1]) + if lines[|lines| - 1] == [] then 0 else 1
  }

  /** `NonEmpty` counts exactly the indices of lines the report loop does not skip. */
  lemma {:induction false} NonEmptyCounts(lines: seq<string>)
    ensures NonEmpty(lines) == |set i | 0 <= i < |lines| && lines[i] != []|
  {
    var b := set i | 0 <= i < |lines| && lines[i] != [];
    if lines == [] {
      assert b == {};
    } else {
      var init := lines[..|lines| - 1];
      var a := set i | 0 <= i < |init| && init[i] != [];
      NonEmptyCounts(init);
      if lines[|lines| - 1] == [] {
        assert b == a;
      } else {
        assert b == a + {|lines| - 1};
      }
    }
  }

  /**
   * Each selected page is called once, in selection order: the URLs
   * fetched are those of the first pages, each answered by the request
   * number it was sent as, and the fetches stop exactly at the first page
   * the program cannot call.
   */
  lemma {:induction false} RowFetchesSpec(pages: seq<string>, r: Request, answer: (nat, string) -> Option<real>, n: nat, k: nat)
    requires k <= |pages|
    ensures InOrder(pages, r, answer, n, k, RowFetches(pages, r, answer, n, k))
  {
    if k > 0 {
      var f := RowFetches(pages, r, answer, n, k - 1);
      RowFetchesSpec(pages, r, answer, n, k - 1);
      if f.crash.Some? {
        InOrderStays(pages, r, answer, n, k, f);
      } else if PageCall(pages[k - 1], r).Fail? {
        InOrderFails(pages, r, answer, n, k, f, PageCall(pages[k - 1], r).crash);
      } else {
        InOrderFetches(pages, r, answer, n, k, f, PageCall(pages[k - 1], r).url);
      }
    }
  }

  lemma InOrderStays(pages: seq<string>, r: Request, answer: (nat, string) -> Option<real>, n: nat, k: nat, f: Fetches)
    requires 0 < k <= |pages| && |f.urls| == |f.rates| <= k - 1 && f.crash.Some?
    requires InOrder(pages, r, answer, n, k - 1, f)
    ensures InOrder(pages, r, answer, n, k, f)
  {
  }

  lemma InOrderFails(pages: seq<string>, r: Request, answer: (nat, string) -> Option<real>, n: nat, k: nat,
                     f: Fetches, c: Crash)
    requires 0 < k <= |pages| && |f.urls| == |f.rates| == k - 1 && f.crash.None?
    requires InOrder(pages, r, answer, n, k - 1, f) && PageCall(pages[k - 1], r) == Fail(c)
    ensures InOrder(pages, r, answer, n, k, f.(crash := Some(c)))
  {
  }

  lemma InOrderFetches(pages: seq<string>, r: Request, answer: (nat, string) -> Option<real>, n: nat, k: nat,
                       f: Fetches, u: string)
    requires 0 < k <= |pages| && |f.urls| == |f.rates| == k - 1 && f.crash.None?
    requires InOrder(pages, r, answer, n, k - 1, f) && PageCall(pages[k - 1], r) == Fetch(u)
    ensures InOrder(pages, r, answer, n, k, Fetches(f.urls + [u], f.rates + [FailSoft(answer(n + |f.urls|, u))], None))
  {
  }

  /** `f` fetched the first pages in order and stopped exactly at the first of the `k` it could not call. */
  predicate InOrder(pages: seq<string>, r: Request, answer: (nat, string) -> Option<real>, n: nat, k: nat, f: Fetches)
    requires k <= |pages| && |f.urls| == |f.rates| <= k
  {
    (forall j | 0 <= j < |f.urls| :: PageCall(pages[j], r) == Fetch(f.urls[j]) &&
                                     f.rates[j] == FailSoft(answer(n + j, f.urls[j]))) &&
    (f.crash.None? <==> forall j | 0 <= j < k :: PageCall(pages[j], r).Fetch?) &&
    (f.crash.Some? ==> |f.urls| < k && PageCall(pages[|f.urls|], r) == Fail(f.crash.value))
  }

  /** The four codes of a request, in column order. */
  function Codes(r: Request): seq<string> {
    [r.srcCountry, r.srcCurrency, r.dstCountry, r.dstCurrency]
  }

  /** The cells of a row: the codes unformatted, then each rate rounded and unformatted. */
  predicate RowShape(cells: seq<Cell>, r: Request, rates: seq<real>, round: real -> real) {
    |cells| == 4 + |rates| &&
    (forall c | 0 <= c < 4 :: cells[c] == Cell(Label(Codes(r)[c]), Plain)) &&
    (forall j | 0 <= j < |rates| :: cells[4 + j] == Cell(Number(round(rates[j])), Plain))
  }

  lemma WrittenRow(r: Request, rates: seq<real>, round: real -> real)
    ensures RowShape(Written(Values(r, rates), round), r, rates, round)
  {
    var vs := Values(r, rates);
    assert forall c | 4 <= c < |vs| :: vs[c] == Number(rates[c - 4]);
  }

  /**
   * The requests a run makes before line `i` (0-based) while nothing has
   * crashed: one per page for each non-empty line in front of it.
   */
  function CallsBefore(lines: seq<string>, pages: seq<string>, n0: nat, i: nat): nat
    requires i <= |lines|
  {
    n0 + NonEmpty(lines[..i]) * |pages|
  }

  /**
   * A row written for line `index - 1`, which is non-empty and parsed: its
   * rates are those the line's fetches obtained, over requests numbered
   * from the calls made before that line.
   */
  predicate RowOf(lines: seq<string>, pages: seq<string>, answer: (nat, string) -> Option<real>, n0: nat,
                  round: real -> real, w: RowWrite) {
    1 <= w.index <= |lines| && lines[w.index - 1] != [] && ParseLine(lines[w.index - 1]).Some? &&
    var r := ParseLine(lines[w.index - 1]).value;
    var f := RowFetches(pages, r, answer, CallsBefore(lines, pages, n0, w.index - 1), |pages|);
    f.crash.None? && RowShape(w.cells, r, f.rates, round)
  }

  /**
   * The rate cells of a row, spelled out: every selected page was called,
   * in order, and cell `4 + j` holds the rounded answer to request
   * `m + j`, the URL of page `j`, where `m` counts the calls before the line.
   */
  lemma RowRates(lines: seq<string>, pages: seq<string>, answer: (nat, string) -> Option<real>, n0: nat,
                 round: real -> real, w: RowWrite)
    requires RowOf(lines, pages, answer, n0, round, w)
    ensures var r := ParseLine(lines[w.index - 1]).value;
            var m := CallsBefore(lines, pages, n0, w.index - 1);
            |w.cells| == 4 + |pages| &&
            forall j | 0 <= j < |pages| ::
              PageCall(pages[j], r).Fetch? &&
              w.cells[4 + j] == Cell(Number(round(FailSoft(answer(m + j, PageCall(pages[j], r).url)))), Plain)
  {
    var r := ParseLine(lines[w.index - 1]).value;
    RowFetchesSpec(pages, r, answer, CallsBefore(lines, pages, n0, w.index - 1), |pages|);
  }

  /**
   * One pass of the loop either leaves the rows as they were or, for a
   * non-empty line of a run still going, adds the row of that line; it
   * keeps a run going only if it was, fetching once per page for a
   * non-empty line.
   */
  predicate Advances(s: Sheet, t: Sheet, lines: seq<string>, k: nat, pages: seq<string>,
                     answer: (nat, string) -> Option<real>, n0: nat, round: real -> real)
    requires 0 < k <= |lines|
  {
    (t.rows == s.rows || (|t.rows| == |s.rows| + 1 && t.rows[..|s.rows|] == s.rows &&
                          RowOf(lines, pages, answer, n0, round, t.rows[|s.rows|]) && t.rows[|s.rows|].index == k)) &&
    (t.crash.None? ==> s.crash.None? && |t.calls| == |s.calls| + (if lines[k - 1] == [] then 0 else |pages|) &&
                       |t.rows| == |s.rows| + (if lines[k - 1] == [] then 0 else 1))
  }

  lemma StepSpec(s: Sheet, lines: seq<string>, k: nat, pages: seq<string>, answer: (nat, string) -> Option<real>,
                 n0: nat, round: real -> real)
    requires 0 < k <= |lines|
    requires s.crash.None? ==> n0 + |s.calls| == CallsBefore(lines, pages, n0, k - 1)
    ensures Advances(s, LineStep(s, lines[k - 1], k, pages, answer, n0, round), lines, k, pages, answer, n0, round)
  {
    var line := lines[k - 1];
    if s.crash.Some? || line == [] {
      StepSkips(s, line, k, pages, answer, n0, round);
    } else if ParseLine(line).None? {
      StepNoMatch(s, line, k, pages, answer, n0, round);
    } else {
      var r := ParseLine(line).value;
      StepFetched(s, line, k, pages, answer, n0, round, r);
      RequestAdvances(s, lines, k, pages, answer, n0, round, r);
    }
  }

  /** The requests of a parsed line advance the run. */
  lemma RequestAdvances(s: Sheet, lines: seq<string>, k: nat, pages: seq<string>, answer: (nat, string) -> Option<real>,
                        n0: nat, round: real -> real, r: Request)
    requires 0 < k <= |lines| && s.crash.None? && lines[k - 1] != [] && ParseLine(lines[k - 1]) == Some(r)
    requires n0 + |s.calls| == CallsBefore(lines, pages, n0, k - 1)
    ensures Advances(s, RequestStep(s, r, k, pages, answer, n0, round), lines, k, pages, answer, n0, round)
  {
    var f := RowFetches(pages, r, answer, n0 + |s.calls|, |pages|);
    var t := RequestStep(s, r, k, pages, answer, n0, round);
    RequestOutcome(s, r, k, pages, answer, n0, round, f);
    if f.crash.None? {
      var cells := Written(Values(r, f.rates), round);
      WrittenRow(r, f.rates, round);
      RowStep(s, t, lines, k, pages, answer, n0, round, r, f, cells);
    } else {
      CrashAdvances(s, t, lines, k, pages, answer, n0, round);
    }
  }

  /** A pass that crashes writes nothing. */
  lemma CrashAdvances(s: Sheet, t: Sheet, lines: seq<string>, k: nat, pages: seq<string>,
                      answer: (nat, string) -> Option<real>, n0: nat, round: real -> real)
    requires 0 < k <= |lines| && t.rows == s.rows && t.crash.Some?
    ensures Advances(s, t, lines, k, pages, answer, n0, round)
  {
  }

  /** Appending the row of a parsed non-empty line advances the run. */
  lemma RowStep(s: Sheet, t: Sheet, lines: seq<string>, k: nat, pages: seq<string>, answer: (nat, string) -> Option<real>,
                n0: nat, round: real -> real, r: Request, f: Fetches, cells: seq<Cell>)
    requires 0 < k <= |lines| && s.crash.None? && lines[k - 1] != [] && ParseLine(lines[k - 1]) == Some(r)
    requires n0 + |s.calls| == CallsBefore(lines, pages, n0, k - 1)
    requires f == RowFetches(pages, r, answer, n0 + |s.calls|, |pages|)
    requires f.crash.None? && RowShape(cells, r, f.rates, round)
    requires t.rows == s.rows + [RowWrite(k, cells)] && t.calls == s.calls + f.urls && t.crash.None?
    ensures Advances(s, t, lines, k, pages, answer, n0, round)
  {
    assert t.rows[..|s.rows|] == s.rows && t.rows[|s.rows|] == RowWrite(k, cells);
  }

  /**
   * Each row belongs to a non-empty, parsed line among the first `k` and
   * sits at that line's index plus one, so row 0, the header, is never
   * written; each holds the line's four upper-cased codes and the rounded
   * rates its fetches obtained; and the row indices strictly increase.
   */
  predicate RowsInOrder(lines: seq<string>, pages: seq<string>, answer: (nat, string) -> Option<real>, n0: nat,
                        round: real -> real, ws: seq<RowWrite>, k: nat) {
    RowsOf(lines, pages, answer, n0, round, ws, k) && Increasing(ws)
  }

  predicate RowsOf(lines: seq<string>, pages: seq<string>, answer: (nat, string) -> Option<real>, n0: nat,
                   round: real -> real, ws: seq<RowWrite>, k: nat) {
    forall j | 0 <= j < |ws| :: RowOf(lines, pages, answer, n0, round, ws[j]) && ws[j].index <= k
  }

  predicate Increasing(ws: seq<RowWrite>) {
    forall j, j' | 0 <= j < j' < |ws| :: ws[j].index < ws[j'].index
  }

  /** The rows written so far, whether the run crashed or not, are in order. */
  lemma {:induction false} RowsSpec(lines: seq<string>, pages: seq<string>, answer: (nat, string) -> Option<real>,
                                    n0: nat, round: real -> real, k: nat)
    requires k <= |lines|
    ensures RowsInOrder(lines, pages, answer, n0, round, RunLines(lines, pages, answer, n0, round, k).rows, k)
  {
    if k > 0 {
      var s := RunLines(lines, pages, answer, n0, round, k - 1);
      RowsSpec(lines, pages, answer, n0, round, k - 1);
      CallsSoFar(lines, pages, answer, n0, round, k - 1);
      StepSpec(s, lines, k, pages, answer, n0, round);
      RowsStep(lines, pages, answer, n0, round, s, RunLines(lines, pages, answer, n0, round, k), k);
    }
  }

  lemma RowsStep(lines: seq<string>, pages: seq<string>, answer: (nat, string) -> Option<real>, n0: nat,
                 round: real -> real, s: Sheet, t: Sheet, k: nat)
    requires 0 < k <= |lines|
    requires RowsInOrder(lines, pages, answer, n0, round, s.rows, k - 1)
    requires Advances(s, t, lines, k, pages, answer, n0, round)
    ensures RowsInOrder(lines, pages, answer, n0, round, t.rows, k)
  {
    if t.rows != s.rows {
      var w := t.rows[|s.rows|];
      assert t.rows == s.rows + [w] by {
        assert t.rows == t.rows[..|s.rows|] + [w];
      }
      RowsOfAppend(lines, pages, answer, n0, round, s.rows, w, k);
      IncreasingAppend(s.rows, w, k);
    }
  }

  lemma RowsOfAppend(lines: seq<string>, pages: seq<string>, answer: (nat, string) -> Option<real>, n0: nat,
                     round: real -> real, ws: seq<RowWrite>, w: RowWrite, k: nat)
    requires k > 0 && RowsOf(lines, pages, answer, n0, round, ws, k - 1)
    requires RowOf(lines, pages, answer, n0, round, w) && w.index == k
    ensures RowsOf(lines, pages, answer, n0, round, ws + [w], k)
  {
    forall j | 0 <= j < |ws| + 1
      ensures RowOf(lines, pages, answer, n0, round, (ws + [w])[j]) && (ws + [w])[j].index <= k
    {
      if j < |ws| {
        assert (ws + [w])[j] == ws[j];
      }
    }
  }

  lemma IncreasingAppend(ws: seq<RowWrite>, w: RowWrite, k: int)
    requires Increasing(ws) && (forall j | 0 <= j < |ws| :: ws[j].index <= k - 1) && w.index == k
    ensures Increasing(ws + [w])
  {
  }

  lemma MulSucc(e: nat, n: int)
    ensures (e + 1) * n == e * n + n
  {
  }

  /** A run that has not crashed has written one row per non-empty line and fetched once per page for each. */
  lemma {:induction false} CallCount(lines: seq<string>, pages: seq<string>, answer: (nat, string) -> Option<real>,
                                     n0: nat, round: real -> real, k: nat)
    requires k <= |lines|
    requires RunLines(lines, pages, answer, n0, round, k).crash.None?
    ensures |RunLines(lines, pages, answer, n0, round, k).rows| == NonEmpty(lines[..k])
    ensures |RunLines(lines, pages, answer, n0, round, k).calls| == NonEmpty(lines[..k]) * |pages|
  {
    if k > 0 {
      var s := RunLines(lines, pages, answer, n0, round, k - 1);
      if s.crash.None? {
        CallCount(lines, pages, answer, n0, round, k - 1);
      }
      var t := RunLines(lines, pages, answer, n0, round, k);
      assert t == LineStep(s, lines[k - 1], k, pages, answer, n0, round);
      StepSpec(s, lines, k, pages, answer, n0, round);
      CountStep(lines, pages, answer, n0, round, s, t, k);
    }
  }

  /** The requests of a run still going are numbered on from the calls it has made. */
  lemma CallsSoFar(lines: seq<string>, pages: seq<string>, answer: (nat, string) -> Option<real>,
                   n0: nat, round: real -> real, k: nat)
    requires k <= |lines|
    ensures RunLines(lines, pages, answer, n0, round, k).crash.None? ==>
              n0 + |RunLines(lines, pages, answer, n0, round, k).calls| == CallsBefore(lines, pages, n0, k)
  {
    if RunLines(lines, pages, answer, n0, round, k).crash.None? {
      CallCount(lines, pages, answer, n0, round, k);
    }
  }

  lemma CountStep(lines: seq<string>, pages: seq<string>, answer: (nat, string) -> Option<real>, n0: nat,
                  round: real -> real, s: Sheet, t: Sheet, k: nat)
    requires 0 < k <= |lines| && t.crash.None?
    requires Advances(s, t, lines, k, pages, answer, n0, round)
    requires |s.rows| == NonEmpty(lines[..k - 1]) && |s.calls| == NonEmpty(lines[..k - 1]) * |pages|
    ensures |t.rows| == NonEmpty(lines[..k]) && |t.calls| == NonEmpty(lines[..k]) * |pages|
  {
    assert lines[..k][..k - 1] == lines[..k - 1];
    MulSucc(NonEmpty(lines[..k - 1]), |pages|);
  }

  /** Every cell the rows put in the worksheet is in one of their rows. */
  lemma {:induction false} GridRows(ws: seq<RowWrite>, lo: int)
    requires forall j | 0 <= j < |ws| :: ws[j].index >= lo
    ensures forall key | key in GridOf(ws) :: key.0 >= lo
    decreases |ws|
  {
    if ws != [] {
      GridRows(ws[..|ws| - 1], lo);
    }
  }

  /**
   * With strictly increasing row indices no row overwrites another: each
   * cell of each row is in the worksheet as that row wrote it.
   */
  lemma {:induction false} GridCell(ws: seq<RowWrite>, j: nat, c: nat)
    requires Increasing(ws) && j < |ws| && c < |ws[j].cells|
    ensures (ws[j].index, c) in GridOf(ws) && GridOf(ws)[(ws[j].index, c)] == ws[j].cells[c]
    decreases |ws|
  {
    var init := ws[..|ws| - 1];
    if j < |ws| - 1 {
      assert init[j] == ws[j];
      assert Increasing(init);
      GridCell(init, j, c);
      assert ws[j].index < ws[|ws| - 1].index;
    }
  }

  /** The header row of a run is never overwritten, since every other row is written at index 1 or more. */
  lemma {:induction false} HeaderKept(names: seq<string>, ws: seq<RowWrite>, c: nat)
    requires (forall j | 0 <= j < |ws| :: ws[j].index >= 1) && c < |names|
    ensures (0, c) in GridOf([RowWrite(0, HeaderRow(names))] + ws)
    ensures GridOf([RowWrite(0, HeaderRow(names))] + ws)[(0, c)] == HeaderCell(c, names[c])
    decreases |ws|
  {
    var h := RowWrite(0, HeaderRow(names));
    if ws == [] {
      assert [h] + ws == [h];
      assert [h][..0] == [];
      assert HeaderRow(names)[c] == HeaderCell(c, names[c]);
    } else {
      var init := ws[..|ws| - 1];
      HeaderKept(names, init, c);
      assert [h] + ws == ([h] + init) + [ws[|ws| - 1]];
      GridPast([h] + init, ws[|ws| - 1], (0, c));
    }
  }

  /** Writing a row elsewhere leaves a cell as it was. */
  lemma GridPast(ws: seq<RowWrite>, w: RowWrite, key: (int, int))
    requires key in GridOf(ws) && key.0 != w.index
    ensures key in GridOf(ws + [w]) && GridOf(ws + [w])[key] == GridOf(ws)[key]
  {
    assert (ws + [w])[..|ws|] == ws;
    LookupPast(GridOf(ws), RowMap(w.index, w.cells), key);
  }

  /** A later write elsewhere leaves a cell as it was. */
  lemma LookupPast(g: Grid, m: Grid, key: (int, int))
    requires key in g && key !in m
    ensures key in g + m && (g + m)[key] == g[key]
  {
  }

  /** Once a page cannot be called, the later pages of the line are not tried. */
  lemma {:induction false} FetchCrashStays(pages: seq<string>, r: Request, answer: (nat, string) -> Option<real>,
                                           n: nat, i: nat, k: nat)
    requires i <= k <= |pages| && RowFetches(pages, r, answer, n, i).crash.Some?
    ensures RowFetches(pages, r, answer, n, k) == RowFetches(pages, r, answer, n, i)
    decreases k
  {
    if k > i {
      FetchCrashStays(pages, r, answer, n, i, k - 1);
    }
  }

  /** A page that cannot be called fails with a lookup error, never a division by zero. */
  lemma {:induction false} FetchesNoZeroDivision(pages: seq<string>, r: Request, answer: (nat, string) -> Option<real>,
                                                 n: nat, k: nat)
    requires k <= |pages|
    ensures RowFetches(pages, r, answer, n, k).crash != Some(ZeroDivision)
  {
    if k > 0 {
      FetchesNoZeroDivision(pages, r, answer, n, k - 1);
    }
  }

  /** The report loop never divides: only the step computed before it can fail with `ZeroDivision`. */
  lemma {:induction false} RunNoZeroDivision(lines: seq<string>, pages: seq<string>, answer: (nat, string) -> Option<real>,
                                             n0: nat, round: real -> real, k: nat)
    requires k <= |lines|
    ensures RunLines(lines, pages, answer, n0, round, k).crash != Some(ZeroDivision)
  {
    if k > 0 {
      var s := RunLines(lines, pages, answer, n0, round, k - 1);
      var line := lines[k - 1];
      assert RunLines(lines, pages, answer, n0, round, k) == LineStep(s, line, k, pages, answer, n0, round);
      RunNoZeroDivision(lines, pages, answer, n0, round, k - 1);
      if s.crash.Some? || line == [] {
        StepSkips(s, line, k, pages, answer, n0, round);
      } else if ParseLine(line).None? {
        StepNoMatch(s, line, k, pages, answer, n0, round);
      } else {
        var r := ParseLine(line).value;
        var f := RowFetches(pages, r, answer, n0 + |s.calls|, |pages|);
        StepFetched(s, line, k, pages, answer, n0, round, r);
        RequestOutcome(s, r, k, pages, answer, n0, round, f);
        FetchesNoZeroDivision(pages, r, answer, n0 + |s.calls|, |pages|);
      }
    }
  }

  /** Once a line crashes the run, the later lines are not read. */
  lemma {:induction false} RunCrashStays(lines: seq<string>, pages: seq<string>, answer: (nat, string) -> Option<real>,
                                         n0: nat, round: real -> real, i: nat, k: nat)
    requires i <= k <= |lines| && RunLines(lines, pages, answer, n0, round, i).crash.Some?
    ensures RunLines(lines, pages, answer, n0, round, k) == RunLines(lines, pages, answer, n0, round, i)
    decreases k
  {
    if k > i {
      RunCrashStays(lines, pages, answer, n0, round, i, k - 1);
    }
  }

  /**
   * The rows of a whole run: each belongs to a non-empty parsed line, sits
   * below the header at that line's index plus one, and holds the line's
   * codes and one rate per page, in increasing row order.
   */
  lemma GenerateRows(text: string, pages: seq<string>, answer: (nat, string) -> Option<real>, n0: nat, round: real -> real)
    ensures RowsInOrder(Lines(text), pages, answer, n0, round, Generate(text, pages, answer, n0, round).rows, |Lines(text)|)
  {
    RowsSpec(Lines(text), pages, answer, n0, round, |Lines(text)|);
  }

  /** A line without characters is skipped; a text of non-empty lines has one per line. */
  lemma {:induction false} AllNonEmpty(lines: seq<string>)
    requires forall j | 0 <= j < |lines| :: lines[j] != []
    ensures NonEmpty(lines) == |lines|
    decreases |lines|
  {
    if lines != [] {
      var init := lines[..|lines| - 1];
      assert forall j | 0 <= j < |init| :: init[j] == lines[j];
      AllNonEmpty(init);
    }
  }

  /**
   * A completed run over non-empty lines calls every page once per line,
   * so the progress bar, moved by the step plus one per call from 0,
   * passes 100 before the run sets it to 100.
   */
  lemma CompletedOvershoot(text: string, pages: seq<string>, answer: (nat, string) -> Option<real>, n0: nat,
                           round: real -> real)
    requires forall j | 0 <= j < |Lines(text)| :: Lines(text)[j] != []
    requires Generate(text, pages, answer, n0, round).crash.None?
    ensures Percentage(|Lines(text)|, |pages|).Some?
    ensures Bar(0, |Generate(text, pages, answer, n0, round).calls|, Percentage(|Lines(text)|, |pages|).value) > 100
  {
    GenerateRuns(text, pages, answer, n0, round);
    var lines := Lines(text);
    var step := Percentage(|lines|, |pages|).value;
    CompletedCalls(lines, pages, answer, n0, round);
    CallsOvershoot(|Generate(text, pages, answer, n0, round).calls|, |lines|, |pages|, step);
  }

  /** A run over non-empty lines that does not crash calls every page once per line. */
  lemma CompletedCalls(lines: seq<string>, pages: seq<string>, answer: (nat, string) -> Option<real>, n0: nat,
                       round: real -> real)
    requires forall j | 0 <= j < |lines| :: lines[j] != []
    requires RunLines(lines, pages, answer, n0, round, |lines|).crash.None?
    ensures |RunLines(lines, pages, answer, n0, round, |lines|).calls| == |lines| * |pages|
  {
    CallCount(lines, pages, answer, n0, round, |lines|);
    AllNonEmpty(lines);
    assert lines[..|lines|] == lines;
  }

  lemma CallsOvershoot(calls: nat, lines: nat, selected: nat, step: nat)
    requires calls == lines * selected && Percentage(lines, selected) == Some(step)
    ensures Bar(0, calls, step) > 100
  {
    Overshoot(lines, selected);
    MulComm(calls, step + 1);
    BarLinear(0, calls, step);
  }

  /** Serves `CallsOvershoot`: turns `calls * (step + 1)` into the product `BarLinear` gives. */
  lemma MulComm(x: int, y: int)
    ensures x * y == y * x
  {
  }

  lemma StepSkips(s: Sheet, line: string, row: int, pages: seq<string>, answer: (nat, string) -> Option<real>,
                  n0: nat, round: real -> real)
    requires s.crash.Some? || line == []
    ensures LineStep(s, line, row, pages, answer, n0, round) == s
  {
  }

  lemma StepNoMatch(s: Sheet, line: string, row: int, pages: seq<string>, answer: (nat, string) -> Option<real>,
                    n0: nat, round: real -> real)
    requires s.crash.None? && line != [] && ParseLine(line).None?
    ensures LineStep(s, line, row, pages, answer, n0, round) == s.(crash := Some(NoMatch(line)))
  {
  }

  lemma StepFetched(s: Sheet, line: string, row: int, pages: seq<string>, answer: (nat, string) -> Option<real>,
                    n0: nat, round: real -> real, r: Request)
    requires s.crash.None? && line != [] && ParseLine(line) == Some(r)
    ensures LineStep(s, line, row, pages, answer, n0, round) == RequestStep(s, r, row, pages, answer, n0, round)
  {
  }

  /** A page whose call fails stops the fetches of its line with that crash. */
  lemma FetchFails(pages: seq<string>, r: Request, answer: (nat, string) -> Option<real>, n: nat, i: nat,
                   urls: seq<string>, rates: seq<real>, c: Crash)
    requires i < |pages| && RowFetches(pages, r, answer, n, i) == Fetches(urls, rates, None)
    requires PageCall(pages[i], r) == Fail(c)
    ensures RowFetches(pages, r, answer, n, i + 1) == Fetches(urls, rates, Some(c))
  {
  }

  /** A page whose URL is fetched adds that URL and its rate, answered as request `n + |urls|`. */
  lemma FetchNext(pages: seq<string>, r: Request, answer: (nat, string) -> Option<real>, n: nat, i: nat,
                  urls: seq<string>, rates: seq<real>, u: string, rate: real)
    requires i < |pages| && RowFetches(pages, r, answer, n, i) == Fetches(urls, rates, None)
    requires PageCall(pages[i], r) == Fetch(u) && rate == FailSoft(answer(n + |urls|, u))
    ensures RowFetches(pages, r, answer, n, i + 1) == Fetches(urls + [u], rates + [rate], None)
  {
  }

  /** The three outcomes of looking up a page and its API function. */
  lemma PageCallCases(page: string, r: Request)
    ensures Lookup(page).None? ==> PageCall(page, r) == Fail(UnknownPage(page))
    ensures Lookup(page).Some? && Url(Lookup(page).value, r).None? ==> PageCall(page, r) == Fail(MissingApi(page))
    ensures Lookup(page).Some? && Url(Lookup(page).value, r).Some? ==> PageCall(page, r) == Fetch(Url(Lookup(page).value, r).value)
  {
  }

  lemma RequestOutcome(s: Sheet, r: Request, row: int, pages: seq<string>, answer: (nat, string) -> Option<real>,
                       n0: nat, round: real -> real, f: Fetches)
    requires f == RowFetches(pages, r, answer, n0 + |s.calls|, |pages|)
    ensures RequestStep(s, r, row, pages, answer, n0, round).calls == s.calls + f.urls
    ensures RequestStep(s, r, row, pages, answer, n0, round).crash == f.crash
    ensures f.crash.Some? ==> RequestStep(s, r, row, pages, answer, n0, round).rows == s.rows
    ensures f.crash.None? ==>
              RequestStep(s, r, row, pages, answer, n0, round).rows == s.rows + [RowWrite(row, Written(Values(r, f.rates), round))]
  {
  }

  lemma GenerateRuns(text: string, pages: seq<string>, answer: (nat, string) -> Option<real>, n0: nat, round: real -> real)
    ensures Percentage(|Lines(text)|, |pages|).None? ==> Generate(text, pages, answer, n0, round) == Sheet([], [], Some(ZeroDivision))
    ensures Percentage(|Lines(text)|, |pages|).Some? ==>
              Generate(text, pages, answer, n0, round) == RunLines(Lines(text), pages, answer, n0, round, |Lines(text)|)
  {
  }

  /**
   * The validator and the parser disagree: a group whose tokens are split
   * over two lines passes the validator, but the report loop finds no match
   * on its first line and stops there, before any request.
   */
  lemma SplitGroupCrashes(pages: seq<string>, answer: (nat, string) -> Option<real>, n0: nat, round: real -> real)
    requires pages != []
    ensures !HasErrors("US USD\nGB GBP")
    ensures Generate("US USD\nGB GBP", pages, answer, n0, round) == Sheet([], [], Some(NoMatch("US USD")))
  {
    SplitGroupValid();
    SplitGroupLines();
    SplitGroupFirst();
    FirstLineCrashes("US USD\nGB GBP", "US USD", "GB GBP", pages, answer, n0, round);
  }

  lemma SplitGroupValid()
    ensures !HasErrors("US USD\nGB GBP")
  {
    AcceptsGroupAcrossLines();
    AcceptsIff("US USD\nGB GBP");
  }

  lemma SplitGroupLines()
    ensures Lines("US USD\nGB GBP") == ["US USD", "GB GBP"]
  {
    TwoLines("US USD", "GB GBP");
    assert "US USD" + ['\n'] + "GB GBP" == "US USD\nGB GBP";
  }

  lemma SplitGroupFirst()
    ensures ParseLine("US USD") == None
  {
    LineOne("US", " ");
    LineOne("USD", "");
    LineAppend(["US"], [" "], ["USD"], [""]);
    assert "US" + " " + ("USD" + "") == "US USD";
    RunsOfLine(["US", "USD"], [" ", ""]);
  }

  /** A text of two lines whose first line is not empty and gives no match crashes on it, before any request. */
  lemma FirstLineCrashes(text: string, a: string, b: string, pages: seq<string>, answer: (nat, string) -> Option<real>,
                         n0: nat, round: real -> real)
    requires Lines(text) == [a, b] && a != [] && ParseLine(a) == None && pages != []
    ensures Generate(text, pages, answer, n0, round) == Sheet([], [], Some(NoMatch(a)))
  {
    var lines := [a, b];
    assert RunLines(lines, pages, answer, n0, round, 1) == Sheet([], [], Some(NoMatch(a)));
    RunCrashStays(lines, pages, answer, n0, round, 1, 2);
  }

  /**
   * Whitespace after the last group is accepted whatever it holds, but a
   * blank after the final line feed is a line of its own that the parser
   * cannot match: the run crashes, whatever the pages.
   */
  lemma TrailingBlankCrashes(pages: seq<string>, answer: (nat, string) -> Option<real>, n0: nat, round: real -> real)
    ensures !HasErrors("US USD GB GBP\n ")
    ensures Generate("US USD GB GBP\n ", pages, answer, n0, round).crash.Some?
  {
    TrailingBlankValid();
    TrailingBlankLines();
    RejectsBlankLine();
    LastLineCrashes("US USD GB GBP\n ", "US USD GB GBP", " ", pages, answer, n0, round);
  }

  lemma TrailingBlankValid()
    ensures !HasErrors("US USD GB GBP\n ")
  {
    assert "US" + " " + "USD" + " " + "GB" + " " + "GBP" + "\n " == "US USD GB GBP\n ";
    LineFour("US", "USD", "GB", "GBP", " ", " ", " ", "\n ");
    AcceptsGroup("US", "USD", "GB", "GBP", " ", " ", " ", "\n ");
    AcceptsIff("US USD GB GBP\n ");
  }

  lemma TrailingBlankLines()
    ensures Lines("US USD GB GBP\n ") == ["US USD GB GBP", " "]
  {
    TwoLines("US USD GB GBP", " ");
    assert "US USD GB GBP" + ['\n'] + " " == "US USD GB GBP\n ";
  }

  /** A text of two lines whose second line is not empty and gives no match never completes. */
  lemma LastLineCrashes(text: string, a: string, b: string, pages: seq<string>, answer: (nat, string) -> Option<real>,
                        n0: nat, round: real -> real)
    requires Lines(text) == [a, b] && b != [] && ParseLine(b) == None
    ensures Generate(text, pages, answer, n0, round).crash.Some?
  {
  }

  /** Two parts without a line feed, joined by one: the two lines of the text. */
  lemma TwoLines(a: string, b: string)
    requires '\n' !in a && '\n' !in b
    ensures Lines(a + ['\n'] + b) == [a, b]
  {
    SplitAfter(a, b, '\n');
    SplitNone(b, '\n');
  }
}
