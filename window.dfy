/**
 * The state the report run changes in the main window: the list of
 * selected pages `SCRAPING_REQUESTS`, the worksheet, the progress bar, the
 * `PERCENTAGE` step, whether the workbook was closed and whether the
 * generate and browse buttons are enabled.  Each method does what its
 * Python counterpart does, step by step, and is proved to end in the
 * state the functions of `Report` describe.
 */
module Window {
  import opened Wrappers
  import opened Text
  import opened Validator
  import opened Parser
  import opened Providers
  import opened Progress
  import opened Report

  /** What pressing the generate button leads to. */
  datatype Outcome = Rejected | Completed | Crashed(crash: Crash)

  class ReportWindow {
    var requests: seq<string>
    var grid: Grid
    var progress: int
    var percentage: int
    var closed: bool
    var controlsEnabled: bool

    /** A fresh window: nothing selected, no step yet, an empty bar and the buttons enabled. */
    constructor ()
      ensures requests == [] && grid == map[] && progress == 0 && percentage == 0
      ensures !closed && controlsEnabled
    {
      requests := [];
      grid := map[];
      progress := 0;
      percentage := 0;
      closed := false;
      controlsEnabled := true;
    }

    /**
     * `init_excel`: a new workbook, the checked pages of the ten boxes
     * appended to the selected pages, and the header row written over the
     * column names followed by every selected page.
     */
    method InitExcel(boxes: seq<Checkbox>)
      requires |boxes| == 10
      modifies this`requests, this`grid, this`closed
      ensures requests == old(requests) + Checked(boxes)
      ensures grid == GridOf([RowWrite(0, HeaderRow(Headers + requests))])
      ensures !closed
    {
      grid := map[];
      closed := false;
      for link := 0 to 10
        invariant requests == old(requests) + Checked(boxes[..link]) && grid == map[] && !closed
      {
        assert boxes[..link + 1][..link] == boxes[..link] && boxes[..link + 1][link] == boxes[link];
        if boxes[link].checked {
          requests := requests + [boxes[link].text];
        }
      }
      assert boxes[..10] == boxes;
      var names := Headers + requests;
      var index := 0;
      var cellFormat := DefaultFormat;
      assert RowMap(0, HeaderRow(names)[..0]) == map[];
      while index < |names|
        invariant 0 <= index <= |names| && names == Headers + requests && !closed
        invariant requests == old(requests) + Checked(boxes)
        invariant cellFormat == if index <= 4 then DefaultFormat else LinkFormat
        invariant grid == RowMap(0, HeaderRow(names)[..index])
      {
        if index == 4 {
          cellFormat := LinkFormat;
        }
        RowMapSnoc(HeaderRow(names), index);
        grid := grid[(0, index) := Cell(Label(names[index]), cellFormat)];
        index := index + 1;
      }
      assert HeaderRow(names)[..index] == HeaderRow(names);
      GridOne(RowWrite(0, HeaderRow(names)));
    }

    /** `update_progress`: the bar moves by the step plus one. */
    method UpdateProgress()
      modifies this`progress
      ensures progress == old(progress) + percentage + 1
    {
      progress := progress + percentage + 1;
    }

    /**
     * The page loop of one line: for each selected page in order, the
     * provider looked up, its API function called and the bar moved; an
     * unknown page or a provider without an API function stops the loop.
     */
    method FetchRow(net: Network, r: Request) returns (rates: seq<real>, crash: Option<Crash>, ghost f: Fetches)
      modifies this`progress, net
      ensures f == RowFetches(requests, r, net.answer, |old(net.calls)|, |requests|)
      ensures rates == f.rates && crash == f.crash
      ensures net.calls == old(net.calls) + f.urls && progress == Bar(old(progress), |f.urls|, percentage)
    {
      ghost var n := |net.calls|;
      ghost var urls: seq<string> := [];
      ghost var answer := net.answer;
      var pages := requests;
      rates := [];
      var i := 0;
      while i < |pages|
        invariant 0 <= i <= |pages| && pages == requests && answer == net.answer
        invariant RowFetches(pages, r, answer, n, i) == Fetches(urls, rates, None)
        invariant net.calls == old(net.calls) + urls
        invariant progress == Bar(old(progress), |urls|, percentage)
      {
        var rate, failure, u := FetchPage(net, r, pages, i, n, urls, rates);
        if failure.Some? {
          FetchCrashStays(pages, r, answer, n, i + 1, |pages|);
          return rates, failure, Fetches(urls, rates, failure);
        }
        rates := rates + [rate];
        urls := urls + [u];
        i := i + 1;
      }
      crash := None;
      f := Fetches(urls, rates, None);
    }

    /**
     * One pass of the page loop, for page `i` after the fetches `urls` and
     * `rates` of the pages before it: the provider looked up and called,
     * and the bar moved, or the crash that stops the loop.
     */
    method FetchPage(net: Network, r: Request, pages: seq<string>, i: nat,
                     ghost n: nat, ghost urls: seq<string>, ghost rates: seq<real>)
      returns (rate: real, failure: Option<Crash>, ghost u: string)
      requires i < |pages| && RowFetches(pages, r, net.answer, n, i) == Fetches(urls, rates, None)
      requires |net.calls| == n + |urls|
      modifies this`progress, net
      ensures failure.Some? ==>
                RowFetches(pages, r, net.answer, n, i + 1) == Fetches(urls, rates, failure) &&
                net.calls == old(net.calls) && progress == old(progress)
      ensures failure.None? ==>
                PageCall(pages[i], r) == Fetch(u) &&
                RowFetches(pages, r, net.answer, n, i + 1) == Fetches(urls + [u], rates + [rate], None) &&
                net.calls == old(net.calls) + [u] && progress == old(progress) + percentage + 1
    {
      rate, failure := CallPage(net, pages[i], r);
      if failure.Some? {
        FetchFails(pages, r, net.answer, n, i, urls, rates, failure.value);
        u := "";
        return;
      }
      u := PageCall(pages[i], r).url;
      FetchNext(pages, r, net.answer, n, i, urls, rates, u, rate);
      UpdateProgress();
    }

    /**
     * `SERVICE_MAPPING[page]` and the call of the API function it names:
     * the page's rate, or why the program stops at this page.
     */
    method CallPage(net: Network, page: string, r: Request) returns (rate: real, failure: Option<Crash>)
      modifies net
      ensures PageCall(page, r).Fail? ==> failure == Some(PageCall(page, r).crash) && net.calls == old(net.calls)
      ensures PageCall(page, r).Fetch? ==>
                failure.None? && net.calls == old(net.calls) + [PageCall(page, r).url] &&
                rate == FailSoft(net.answer(|old(net.calls)|, PageCall(page, r).url))
    {
      PageCallCases(page, r);
      var p := Lookup(page);
      if p.None? {
        return 0.0, Some(UnknownPage(page));
      }
      var url := Url(p.value, r);
      if url.None? {
        return 0.0, Some(MissingApi(page));
      }
      rate := Scrape(net, p.value, r);
      failure := None;
    }

    /** The cell loop of one line: row `row` gets the codes as they are and every rate rounded. */
    method WriteRow(row: int, values: seq<Value>, round: real -> real)
      modifies this`grid
      ensures grid == old(grid) + RowMap(row, Written(values, round))
    {
      var cells := Written(values, round);
      for c := 0 to |values|
        invariant grid == old(grid) + RowMap(row, cells[..c])
      {
        if c < 4 {
          grid := grid[(row, c) := Cell(values[c], Plain)];
        } else {
          grid := grid[(row, c) := Cell(Rounded(values[c], round), Plain)];
        }
        RowSnoc(old(grid), row, cells, c);
      }
      assert cells[..|values|] == cells;
    }

    /**
     * One pass of the report loop, from a run `s` that has written the
     * header `h`, its rows and its calls: the state afterwards is that of
     * the run one line further on.
     */
    method ReportLine(line: string, row: int, net: Network, round: real -> real,
                      ghost s: Sheet, ghost before: seq<string>, ghost h: RowWrite, ghost pages: seq<string>)
      returns (crash: Option<Crash>)
      requires s.crash.None? && requests == pages
      requires Mirrors(s, net.calls, grid, progress, before, h, percentage)
      modifies this`progress, this`grid, net
      ensures crash == LineStep(s, line, row, pages, net.answer, |before|, round).crash
      ensures Mirrors(LineStep(s, line, row, pages, net.answer, |before|, round), net.calls, grid, progress, before, h, percentage)
    {
      if line == [] {
        StepSkips(s, line, row, pages, net.answer, |before|, round);
        return None;
      }
      var r := ParseLine(line);
      if r.None? {
        StepNoMatch(s, line, row, pages, net.answer, |before|, round);
        return Some(NoMatch(line));
      }
      StepFetched(s, line, row, pages, net.answer, |before|, round, r.value);
      ghost var calls, cells, bar := net.calls, grid, progress;
      crash := ReportRequest(r.value, row, net, round);
      RequestMirrors(s, r.value, row, pages, net.answer, round, before, h, percentage,
                     calls, cells, bar, net.calls, grid, progress, crash);
    }

    /**
     * The page loop and then, unless a page failed, the cell loop of a
     * parsed line: the calls, rates and crash of the line's fetches, and
     * its row written only when no page failed.
     */
    method ReportRequest(r: Request, row: int, net: Network, round: real -> real) returns (crash: Option<Crash>)
      modifies this`progress, this`grid, net
      ensures crash == RowFetches(requests, r, net.answer, |old(net.calls)|, |requests|).crash
      ensures net.calls == old(net.calls) + RowFetches(requests, r, net.answer, |old(net.calls)|, |requests|).urls
      ensures progress == Bar(old(progress), |RowFetches(requests, r, net.answer, |old(net.calls)|, |requests|).urls|, percentage)
      ensures crash.Some? ==> grid == old(grid)
      ensures crash.None? ==>
        grid == old(grid) + RowMap(row, Written(Values(r, RowFetches(requests, r, net.answer, |old(net.calls)|, |requests|).rates), round))
    {
      var rates, c, f := FetchRow(net, r);
      if c.Some? {
        return c;
      }
      var values := Values(r, rates);
      WriteRow(row, values, round);
      crash := None;
    }

    /**
     * `generate_report`: disable the controls, empty the bar, start the
     * workbook, compute the step and walk the lines; a run that gets to
     * the end closes the workbook, clears the selected pages, enables the
     * controls and fills the bar.  A run that crashes leaves all of that
     * undone, keeps the pages for the next run and leaves the bar where the
     * last call put it.
     */
    method GenerateReport(text: string, boxes: seq<Checkbox>, net: Network, round: real -> real)
      returns (crash: Option<Crash>)
      requires |boxes| == 10
      modifies this, net
      ensures crash == Generate(text, old(requests) + Checked(boxes), net.answer, |old(net.calls)|, round).crash
      ensures net.calls == old(net.calls) + Generate(text, old(requests) + Checked(boxes), net.answer, |old(net.calls)|, round).calls
      ensures grid == GridOf([RowWrite(0, HeaderRow(Headers + old(requests) + Checked(boxes)))] +
                             Generate(text, old(requests) + Checked(boxes), net.answer, |old(net.calls)|, round).rows)
      ensures crash.None? ==> closed && requests == [] && controlsEnabled && progress == 100
      ensures crash.Some? ==> !closed && requests == old(requests) + Checked(boxes) && !controlsEnabled
      ensures crash.Some? ==>
        progress == Bar(0, |Generate(text, old(requests) + Checked(boxes), net.answer, |old(net.calls)|, round).calls|, percentage)
      ensures crash != Some(ZeroDivision) ==>
        Some(percentage) == Percentage(|Lines(text)|, |old(requests) + Checked(boxes)|)
      ensures crash == Some(ZeroDivision) ==> percentage == old(percentage)
    {
      progress := 0;
      controlsEnabled := false;
      InitExcel(boxes);
      ghost var pages := requests;
      assert Headers + old(requests) + Checked(boxes) == Headers + pages;
      ghost var run;
      crash, run := RunReport(text, net, round, pages);
    }

    /**
     * The rest of `generate_report` once the workbook is started for the
     * selected `pages`: the step, the report loop and the closing steps.
     */
    method RunReport(text: string, net: Network, round: real -> real, ghost pages: seq<string>)
      returns (crash: Option<Crash>, ghost run: Sheet)
      requires requests == pages && grid == GridOf([RowWrite(0, HeaderRow(Headers + pages))])
      requires progress == 0 && !closed && !controlsEnabled
      modifies this`progress, this`grid, this`percentage, this`closed, this`requests, this`controlsEnabled, net
      ensures run == Generate(text, pages, net.answer, |old(net.calls)|, round)
      ensures crash == run.crash && net.calls == old(net.calls) + run.calls
      ensures grid == GridOf([RowWrite(0, HeaderRow(Headers + pages))] + run.rows)
      ensures crash.None? ==> closed && requests == [] && controlsEnabled && progress == 100
      ensures crash.Some? ==> !closed && requests == pages && !controlsEnabled && progress == Bar(0, |run.calls|, percentage)
      ensures crash != Some(ZeroDivision) ==> Some(percentage) == Percentage(|Lines(text)|, |pages|)
      ensures crash == Some(ZeroDivision) ==> percentage == old(percentage)
    {
      var lines := Lines(text);
      ghost var header := RowWrite(0, HeaderRow(Headers + pages));
      GenerateRuns(text, pages, net.answer, |net.calls|, round);
      var step := Percentage(|lines|, |requests|);
      if step.None? {
        assert [header] + [] == [header];
        return Some(ZeroDivision), Sheet([], [], Some(ZeroDivision));
      }
      percentage := step.value;
      crash, run := ReportAndClose(lines, net, round, header, pages);
    }

    /**
     * The report loop and, once every line has been written, the closing
     * steps: save the workbook, clear the selection, enable the controls
     * and fill the bar.
     */
    method ReportAndClose(lines: seq<string>, net: Network, round: real -> real, ghost h: RowWrite, ghost pages: seq<string>)
      returns (crash: Option<Crash>, ghost run: Sheet)
      requires requests == pages && grid == GridOf([h]) && progress == 0 && !closed && !controlsEnabled
      modifies this`progress, this`grid, this`closed, this`requests, this`controlsEnabled, net
      ensures run == RunLines(lines, pages, net.answer, |old(net.calls)|, round, |lines|)
      ensures crash == run.crash && net.calls == old(net.calls) + run.calls && grid == GridOf([h] + run.rows)
      ensures crash != Some(ZeroDivision)
      ensures crash.None? ==> closed && requests == [] && controlsEnabled && progress == 100
      ensures crash.Some? ==> !closed && requests == pages && !controlsEnabled && progress == Bar(0, |run.calls|, percentage)
    {
      crash, run := ReportLines(lines, net, round, h, pages);
      RunNoZeroDivision(lines, pages, net.answer, |old(net.calls)|, round, |lines|);
      if crash.Some? {
        return;
      }
      closed := true;
      requests := [];
      controlsEnabled := true;
      progress := 100;
    }

    /**
     * The report loop over all lines, from an empty run below the header
     * `h`: the window ends up showing the run `s` over every line.
     */
    method ReportLines(lines: seq<string>, net: Network, round: real -> real, ghost h: RowWrite, ghost pages: seq<string>)
      returns (crash: Option<Crash>, ghost s: Sheet)
      requires requests == pages && grid == GridOf([h]) && progress == 0
      modifies this`progress, this`grid, net
      ensures s == RunLines(lines, pages, net.answer, |old(net.calls)|, round, |lines|)
      ensures crash == s.crash && Mirrors(s, net.calls, grid, progress, old(net.calls), h, percentage)
    {
      ghost var before := net.calls;
      ghost var n0 := |before|;
      ghost var answer := net.answer;
      s := Sheet([], [], None);
      assert [h] + [] == [h];
      var i := 0;
      while i < |lines|
        invariant 0 <= i <= |lines| && s == RunLines(lines, pages, answer, n0, round, i) && s.crash.None?
        invariant Mirrors(s, net.calls, grid, progress, before, h, percentage)
      {
        crash := ReportLine(lines[i], i + 1, net, round, s, before, h, pages);
        s := LineStep(s, lines[i], i + 1, pages, answer, n0, round);
        if crash.Some? {
          RunCrashStays(lines, pages, answer, n0, round, i + 1, |lines|);
          return;
        }
        i := i + 1;
      }
      crash := None;
    }

    /**
     * `run_generate_report`: a text the validator rejects changes nothing
     * (an error box is shown); any other text starts the report run.
     */
    method RunGenerateReport(text: string, boxes: seq<Checkbox>, net: Network, round: real -> real)
      returns (outcome: Outcome)
      requires |boxes| == 10
      modifies this, net
      ensures outcome == Rejected <==> HasErrors(text)
      ensures outcome == Rejected ==>
        unchanged(this) && unchanged(net)
      ensures outcome != Rejected ==>
        var run := Generate(text, old(requests) + Checked(boxes), net.answer, |old(net.calls)|, round);
        (outcome == Completed <==> run.crash.None?) &&
        (outcome.Crashed? ==> run.crash == Some(outcome.crash)) &&
        net.calls == old(net.calls) + run.calls &&
        grid == GridOf([RowWrite(0, HeaderRow(Headers + old(requests) + Checked(boxes)))] + run.rows)
      ensures outcome == Completed ==> closed && requests == [] && controlsEnabled && progress == 100
      ensures outcome.Crashed? ==>
        var run := Generate(text, old(requests) + Checked(boxes), net.answer, |old(net.calls)|, round);
        !closed && requests == old(requests) + Checked(boxes) && !controlsEnabled &&
        progress == Bar(0, |run.calls|, percentage) &&
        (outcome.crash == ZeroDivision ==> percentage == old(percentage))
      ensures outcome != Rejected && outcome != Crashed(ZeroDivision) ==>
        Some(percentage) == Percentage(|Lines(text)|, |old(requests) + Checked(boxes)|)
    {
      if HasErrors(text) {
        return Rejected;
      }
      var crash := GenerateReport(text, boxes, net, round);
      outcome := if crash.None? then Completed else Crashed(crash.value);
    }
  }

  /**
   * The window shows the run `s`: the calls made are those before the run
   * followed by the run's, the worksheet holds the header `h` and the
   * run's rows, and the bar has moved once per call.
   */
  predicate Mirrors(s: Sheet, calls: seq<string>, grid: Grid, progress: int, before: seq<string>, h: RowWrite, step: int) {
    calls == before + s.calls && grid == GridOf([h] + s.rows) && progress == Bar(0, |s.calls|, step)
  }

  /**
   * The fetches of a parsed line, made from a window that shows the run
   * `s`, leave it showing the run one line further on.
   */
  lemma RequestMirrors(s: Sheet, r: Request, row: int, pages: seq<string>, answer: (nat, string) -> Option<real>,
                       round: real -> real, before: seq<string>, h: RowWrite, step: int,
                       calls: seq<string>, grid: Grid, progress: int,
                       calls': seq<string>, grid': Grid, progress': int, crash: Option<Crash>)
    requires s.crash.None? && Mirrors(s, calls, grid, progress, before, h, step)
    requires crash == RowFetches(pages, r, answer, |calls|, |pages|).crash
    requires calls' == calls + RowFetches(pages, r, answer, |calls|, |pages|).urls
    requires progress' == Bar(progress, |RowFetches(pages, r, answer, |calls|, |pages|).urls|, step)
    requires crash.Some? ==> grid' == grid
    requires crash.None? ==> grid' == grid + RowMap(row, Written(Values(r, RowFetches(pages, r, answer, |calls|, |pages|).rates), round))
    ensures crash == RequestStep(s, r, row, pages, answer, |before|, round).crash
    ensures Mirrors(RequestStep(s, r, row, pages, answer, |before|, round), calls', grid', progress', before, h, step)
  {
    var f := RowFetches(pages, r, answer, |before| + |s.calls|, |pages|);
    var t := RequestStep(s, r, row, pages, answer, |before|, round);
    RequestOutcome(s, r, row, pages, answer, |before|, round, f);
    AppendAssoc(before, s.calls, f.urls);
    BarAppend(0, |s.calls|, |f.urls|, step);
    if crash.None? {
      GridStep(h, s.rows, t.rows, RowWrite(row, Written(Values(r, f.rates), round)));
    }
  }

  /** A worksheet of one row holds that row's cells. */
  lemma GridOne(w: RowWrite)
    ensures GridOf([w]) == RowMap(w.index, w.cells)
  {
    assert [w][..0] == [];
    assert map[] + RowMap(w.index, w.cells) == RowMap(w.index, w.cells);
  }

  lemma GridStep(h: RowWrite, rows: seq<RowWrite>, rows': seq<RowWrite>, w: RowWrite)
    requires rows' == rows + [w]
    ensures GridOf([h] + rows') == GridOf([h] + rows) + RowMap(w.index, w.cells)
  {
    assert [h] + rows' == ([h] + rows) + [w];
    GridSnoc([h] + rows, w);
  }

  /** Writing one more row after the header and the rows before it. */
  lemma GridSnoc(ws: seq<RowWrite>, w: RowWrite)
    ensures GridOf(ws + [w]) == GridOf(ws) + RowMap(w.index, w.cells)
  {
    assert (ws + [w])[..|ws|] == ws;
  }

  /** Writing one more cell of a row. */
  lemma RowSnoc(g: Grid, row: int, cells: seq<Cell>, c: nat)
    requires c < |cells|
    ensures g + RowMap(row, cells[..c + 1]) == (g + RowMap(row, cells[..c]))[(row, c) := cells[c]]
  {
    assert RowMap(row, cells[..c + 1]) == RowMap(row, cells[..c])[(row, c) := cells[c]];
  }

  /** Writing one more header cell. */
  lemma RowMapSnoc(cells: seq<Cell>, c: nat)
    requires c < |cells|
    ensures RowMap(0, cells[..c + 1]) == RowMap(0, cells[..c])[(0, c) := cells[c]]
  {
  }

}
