# Rate-Scrapper report engine in Dafny

This project models the rate-aggregation core of `RateScrapper.py`. The user
types one currency pair per line: source country, source currency,
destination country, destination currency. They tick up to ten provider
pages and press *generate*. The program then:

- checks the whole text with one anchored regular expression
  (`check_errors_in_input_text`);
- starts a workbook whose header row holds four column names followed by the
  ticked pages (`init_excel`);
- computes the progress step `PERCENTAGE = 100 // lines // pages`;
- walks the lines of `text.split('\n')`, skipping empty ones;
- matches each remaining line with `re.match` and upper-cases the four
  groups;
- for every selected page, looks the page up in `SERVICE_MAPPING`, calls that
  provider's API function and moves the progress bar (`update_progress`);
- writes row `line_index + 1` of the worksheet: the four codes, then one rate
  per page rounded to two decimals;
- when every line is done, closes the workbook, clears the page list,
  enables the controls and sets the bar to 100.

Modules, following the program's structure:

- `Text`: the ASCII character classes `\w` and `\s`.
  - It splits a text into runs: a maximal word run (a token) and the maximal
    whitespace run after it.
  - It also holds `str.split`, `str.join` and `str.upper`.
- `Regex`: the two patterns as lists of repetition items, with a
  backtracking matcher `Match(items, s, tail)`.
  - Its lemmas say that a greedy `\w+` or `\s+` always consumes a whole run.
- `Validator`: `check_errors_in_input_text`.
  - `AcceptsIff` characterizes the accepted texts over tokens.
  - `\s` matches a line feed, so a group of four tokens may span lines, and
    only the whitespace *between* groups must end in a line feed.
- `Parser`: the line split and the per-line match.
  - `re.match` succeeds exactly when the line starts with four tokens.
  - The groups are those tokens, upper-cased; the rest of the line is
    ignored.
- `Providers`: the registry `SERVICE_MAPPING` and the URL each API function
  builds.
  - Each URL is its address followed by its `&`-joined parameters, and
    splitting it at `&` gives the parameters back.
  - A failed fetch is the rate 0.
  - The HTTP client is a class `Network` whose answers are a function of the
    request number and the URL, and which logs every URL requested.
- `Progress`: the step, its floor-division bounds, and the bar moved by the
  step plus one per call.
- `Report`: the specification of a run as functions.
  - `RowFetches` gives the fetches of one line, `LineStep` one pass of the
    report loop, `RunLines` the loop and `Generate` a whole run.
  - Lemmas state what a run guarantees about rows, calls, the header and
    crashes.
- `Window`: the class `ReportWindow`, which holds the state `generate_report`
  changes:
  - the selected pages `SCRAPING_REQUESTS`;
  - the worksheet as a map from (row, column) to a cell;
  - the progress counter and the `PERCENTAGE` step;
  - whether the workbook is closed and whether the buttons are enabled.

  Its methods run the loops of `RateScrapper.py`: the checkbox loop, the header loop,
  the line loop, the page loop and the cell loop. Each is proved to end in
  the state the `Report` functions describe.

A run can stop with an uncaught exception. Four kinds are modelled, each as
its own `Crash`:

- `ZeroDivision`: no page was selected, so `PERCENTAGE` divides by zero.
- `NoMatch`: a non-empty line does not start with four tokens, so `m.group`
  is called on `None`.
- `UnknownPage`: the page is not a key of `SERVICE_MAPPING`.
- `MissingApi`: the page is `xoom` or `worldremit`. Both are registered, but
  `Services` defines no function for them and the `eval` fails.

A fifth kind, a `wise` answer that is not a number reaching the cell loop,
is not modelled (see "## Left out").

A crashed run leaves the workbook open, the page list uncleared and the
controls disabled, as `generate_report` does when an exception ends its
thread.

Four behaviours of `RateScrapper.py` shape the model:

- With no page selected, `init_excel` has already run and the buttons are
  already disabled when `PERCENTAGE` raises `ZeroDivisionError`
  (RateScrapper.py:259-267). The run stops there, with the workbook open
  and the controls disabled.
- A row's index is the line index plus one (RateScrapper.py:269, 286-290).
  Skipped empty lines count as lines.
- The validator and the parser do not accept the same texts. Some validated
  texts make the parser fail part-way through, so the rows before the
  failure are written and the run stops (`SplitGroupCrashes`,
  `TrailingBlankCrashes`).
- `update_progress` adds the step plus one to the bar's value on each call,
  with no clamp of its own (RateScrapper.py:298-301). On every completed run
  over non-empty lines that sum passes 100 (`CompletedOvershoot`). A Qt
  progress bar ignores a value above its maximum, and `update_progress`
  reads the value back from the widget, so the value on screen never passes
  100. Only the model's counter, which keeps every sum, does.

## Model

| member | source | states |
|---|---|---|
| Validator.AcceptsIff | RateScrapper.py:328-331 | The search of `^P(\nP)*$` succeeds exactly when the text holds only word characters and whitespace, starts with a word character, has a positive multiple of four tokens, and the whitespace after every fourth token but the last ends in a line feed. |
| Validator.HasErrors | RateScrapper.py:328-331 | `check_errors_in_input_text` reports an error exactly when the text is not well formed in the sense of `AcceptsIff`. |
| Validator.GroupMatch | RateScrapper.py:329-330 | From the start of token `k` of a group, the rest of the expression matches exactly when the remaining runs form whole groups, with a line feed closing the gap after every fourth token that is followed by more. |
| Validator.GroupsOKIff | RateScrapper.py:329-330 | The run-by-run grouping check is equivalent to its closed form: the count of runs from token `k` is a positive multiple of four, and every separator between groups ends in a line feed. |
| Validator.GroupsFromStart | RateScrapper.py:329-330 | From the first token, the grouping check says "a positive multiple of four tokens, with a line feed after each fourth token but the last". |
| Validator.AcceptsByGroups | RateScrapper.py:329-330 | For a text of word and whitespace characters that starts with a word character, acceptance is the grouping check on its runs. |
| Validator.AcceptedStart | RateScrapper.py:329-330 | An accepted text holds only word characters and whitespace, and starts with a word character. |
| Validator.MatchOnlyWordOrSpace | RateScrapper.py:329-330 | Whatever part of the expression matches a text, the text holds only word characters and whitespace. |
| Validator.LastTokenStep | RateScrapper.py:329-330 | The fourth `\w+` and the trailing `\s*` match exactly when the text ends after the token's whitespace, or that whitespace ends in a line feed and a new group follows. |
| Validator.LastTrail | RateScrapper.py:329-330 | The trailing `\s*` after the last token matches exactly when nothing follows its whitespace, or the whitespace ends in a line feed and a group follows. |
| Validator.LastWordRun | RateScrapper.py:329-330 | The last `\w+` of a group consumes the whole word run. |
| Validator.RunFacts | RateScrapper.py:329-330 | A text of word and whitespace characters that starts with a word character splits into its first run and the runs of a shorter rest, which starts with a word character when not empty. |
| Validator.AcceptsLine | RateScrapper.py:328-331 | Tokens separated by non-empty whitespace are accepted exactly when their count is a positive multiple of four and the whitespace after every fourth token but the last ends in a line feed. |
| Validator.AcceptsGroup | RateScrapper.py:328-331 | One group of four tokens is accepted whatever whitespace separates its tokens, line feeds included, and whatever whitespace trails. |
| Validator.AcceptsTwoGroups | RateScrapper.py:328-331 | Two groups, one after the other, are accepted exactly when the whitespace between them ends in a line feed. |
| Validator.RejectsFifthToken | RateScrapper.py:328-331 | Four tokens followed by a fifth are never accepted, whatever whitespace separates them. |
| Validator.AcceptsOneLine | RateScrapper.py:328-331 | `"US USD GB GBP"` is accepted. |
| Validator.AcceptsTrailingBlankLines | RateScrapper.py:328-331 | `"US USD GB GBP\t\n\n"` is accepted: trailing whitespace, blank lines included. |
| Validator.AcceptsTwoLines | RateScrapper.py:328-331 | Two lines of four codes each, separated by a line feed, are accepted. |
| Validator.AcceptsGroupAcrossLines | RateScrapper.py:328-331 | `"US USD\nGB GBP"` is accepted: a line feed may separate tokens of one group. |
| Validator.RejectsBlankOrIndented | RateScrapper.py:328-331 | The empty text, whitespace only, and a text starting with whitespace are rejected. |
| Validator.RejectsTwoTokens | RateScrapper.py:328-331 | A line of two tokens is rejected. |
| Validator.RejectsFiveTokens | RateScrapper.py:328-331 | A line of five tokens is rejected. |
| Validator.RejectsTwoGroupsOnOneLine | RateScrapper.py:328-331 | Eight tokens on one line are rejected, because the fourth is not followed by a line feed. |
| Regex.PlusNeeds | RateScrapper.py:273-277 | A `\w+` or `\s+` item matches only when the text starts with a character of its class. |
| Regex.TrailNeeds | RateScrapper.py:329-330 | After the last token, a remainder that starts with a word character cannot be matched by `\s*` and the repetition. |
| Regex.StarSkip | RateScrapper.py:329-330 | A `*` item over a maximal run of its class, in front of items that cannot match inside the run, matches exactly when those items match after the whole run. |
| Regex.PlusSkip | RateScrapper.py:273-277 | The same for a `+` item, which in addition needs the run to be non-empty. |
| Regex.TrailStep | RateScrapper.py:329-330 | The trailing `\s*` over a maximal whitespace run matches when the text ends there, or the run ends in the line feed before the next group and that group matches. |
| Regex.InsideWordRun | RateScrapper.py:273-277 | Every position inside a word run starts with a word character. |
| Regex.FromToken | RateScrapper.py:273-277 | The items of the pattern from token `k` on start with a `\w+`. |
| Regex.GroupIsFromToken | RateScrapper.py:329-330 | The validator's group `P` is the pattern from token 0 with the repetition after it. |
| Regex.TokenStep | RateScrapper.py:273-277 | Tokens 1 to 3: the pattern matches exactly when the token's whitespace is not empty and the pattern from the next token matches what follows it. |
| Regex.WordRunStep | RateScrapper.py:273-277 | A `\w+` in front of a `\s+` consumes the whole word run. |
| Regex.SpaceRunStep | RateScrapper.py:273-277 | A `\s+` in front of a `\w+` consumes the whole whitespace run. |
| Text.RunLen | RateScrapper.py:329 | The longest prefix of a class: all of its characters are in the class, and the next one is not. |
| Text.Gap | RateScrapper.py:329 | The gap is the maximal whitespace run right after the first token. |
| Text.After | RateScrapper.py:329 | The text is its first token, its gap, then the rest. |
| Text.Runs | RateScrapper.py:329 | Every run has a non-empty token of word characters and a gap of whitespace, and only the last gap may be empty. |
| Text.RunsCover | RateScrapper.py:329 | The runs spell a prefix of the text, and the character that stops them cannot start a token or continue a gap. |
| Text.RunsOf | RateScrapper.py:329 | A token followed by whitespace and a text that cannot continue either is the first run, and the runs go on with that text. |
| Text.RunLenOf | RateScrapper.py:329 | A run of a class followed by a character outside it has exactly its own length. |
| Text.RunsOfLine | RateScrapper.py:329 | Word tokens separated by non-empty whitespace are exactly the runs of the text they spell. |
| Text.RunsOfPrefix | RateScrapper.py:273-277 | Tokens with non-empty whitespace in front of a text that starts with a word character contribute exactly their own runs. |
| Text.Split | RateScrapper.py:264 | `text.split('\n')` has at least one part, and no part holds the separator. |
| Text.JoinSplit | RateScrapper.py:264 | Joining the parts of a split with the separator gives the text back. |
| Text.SplitJoin | RateScrapper.py:34-39 | Splitting `&`-joined parts that do not contain `&` gives the parts back. |
| Text.SplitAfter | RateScrapper.py:264 | A part without the separator, then the separator, splits off as one part. |
| Text.SplitNone | RateScrapper.py:264 | A text without the separator is one part. |
| Text.Upper | RateScrapper.py:279 | `str.upper()` on ASCII keeps the length and turns each lower-case letter into its upper-case letter, 32 code points lower. Every other character stays as it is, so no lower-case letter is left and a word stays a word. |
| Text.Tokens | RateScrapper.py:279 | The tokens of the runs, in order. |
| Text.Zip | RateScrapper.py:329 | The run at each index is that index's token with its whitespace. |
| Text.LineAppend | RateScrapper.py:330 | Spelling two lists of tokens one after the other spells their concatenation. |
| Parser.Lines | RateScrapper.py:264 | The lines of the report loop: at least one, none holding a line feed, and they join back into the text. |
| Parser.PrefixMatch | RateScrapper.py:273-277 | From token `k` on, `re.match` of the pattern succeeds exactly when at least `4 - k` tokens follow. |
| Parser.MatchGroups | RateScrapper.py:273-277 | A match captures four groups, each a non-empty word. |
| Parser.MatchGroupsFound | RateScrapper.py:273-277 | The groups of a match split the line: the four words with non-empty whitespace between them, then a rest that does not start with a word character. |
| Parser.MatchGroupsUnique | RateScrapper.py:273-277 | Any such split of a line fixes the outcome: the match succeeds with exactly its four words. So a line without a match has no such split. |
| Parser.GroupsOf | RateScrapper.py:273-277 | A line spelled as four words with non-empty whitespace between them, then a rest that does not start with a word character, matches with those four words as its groups. |
| Parser.MatchGroupsIsMatch | RateScrapper.py:273-277 | The groups exist exactly when the pattern matches at the start of the line. |
| Parser.ParseLine | RateScrapper.py:273-279 | A line gives a request exactly when it starts with four tokens, and every code of it is a non-empty word without a lower-case letter. |
| Parser.ParseLineSpec | RateScrapper.py:273-279 | A line that starts with four whitespace-separated tokens gives those tokens upper-cased, whatever follows the fourth. |
| Parser.FirstToken | RateScrapper.py:273-277 | A token followed by something that cannot continue it is the first token of the text. |
| Parser.ParsesExtraWords | RateScrapper.py:273-279 | `"US usd gb GBP extra"` gives `US`, `USD`, `GB`, `GBP`. |
| Parser.RejectsBlankLine | RateScrapper.py:273-279 | A line holding only a blank gives no match. |
| Parser.RejectsThreeTokens | RateScrapper.py:273-279 | A line holding three tokens gives no match. |
| Providers.Lookup | RateScrapper.py:19-27 | `SERVICE_MAPPING[page]` finds a provider exactly when the page is a key, and that provider is registered under that page. |
| Providers.RegistryRoundTrip | RateScrapper.py:19-27 | Each of the seven providers is found under its own page address, and the registry holds exactly seven entries. |
| Providers.Url | RateScrapper.py:30-121 | The URL an API function fetches; there is none exactly for xoom and worldremit, which have no function in `Services`. |
| Providers.UrlIsQuery | RateScrapper.py:30-121 | Each URL is its provider's address followed by the provider's parameters, in the order its API function lists them, joined with `&`. |
| Providers.UrlQuery | RateScrapper.py:30-121 | When no code holds `&`, the URL starts with the address, and splitting the rest at `&` gives exactly the parameters, so each code reaches the provider under its own key. |
| Providers.QueryRoundTrip | RateScrapper.py:34-39 | An address followed by `&`-joined parameters without `&` splits back into those parameters. |
| Providers.ParametersSeparable | RateScrapper.py:30-121 | When no code holds `&`, no parameter of any provider does. |
| Providers.InstaremSeparable | RateScrapper.py:34-39 | No parameter of `instarem_api` holds `&` when no code does. |
| Providers.CurrencyFairSeparable | RateScrapper.py:55-60 | No parameter of `currencyfair_api` holds `&` when no code does. |
| Providers.TransferGoSeparable | RateScrapper.py:76-83 | No parameter of `transfergo_api` holds `&` when no code does. |
| Providers.WiseSeparable | RateScrapper.py:109-113 | No parameter of `wise_api` holds `&` when no code does. |
| Providers.WiseTail | RateScrapper.py:107 | The fixed tail of `wise_api` is three parameters joined with `&`. |
| Providers.WiseQuery | RateScrapper.py:106-113 | The query of `wise_api` is five parameters joined with `&`. |
| Providers.CodesSeparable | RateScrapper.py:273-279 | Codes the parser produces are word characters, so none holds `&`. |
| Providers.WordsSeparable | RateScrapper.py:273-279 | A word holds no `&`. |
| Providers.UrlIgnores | RateScrapper.py:30-121 | A URL is determined by the two currencies, plus the source country for instarem and transfergo and the destination country for transfergo. |
| Providers.UrlDistinguishes | RateScrapper.py:30-121 | The converse: when no code holds `&` (nor, for xendpay, the source currency a `/`), equal URLs mean equal currencies, equal source countries for instarem and transfergo, and equal destination countries for transfergo. |
| Providers.UrlExtendsPage | RateScrapper.py:19-121 | Each provider's URL begins with the page address it is registered under. |
| Providers.FailSoft | RateScrapper.py:41-47 | The `except` branch of every API function: a failed fetch or decode gives 0, a successful one its value. Every API function but `wise_api` converts that value with `float()` inside its `try`. |
| Providers.Network.Get | RateScrapper.py:42-43 | `requests.get`: the URL is logged as the next request, and the answer is the one given for that request number and URL. |
| Providers.Scrape | RateScrapper.py:41-47 | One API function call: its URL is requested once, and the rate is the answer or 0 on failure. |
| Progress.Percentage | RateScrapper.py:267 | `100 // lines // pages` raises `ZeroDivisionError` exactly when either count is zero. |
| Progress.PercentageBounds | RateScrapper.py:267 | The step is the largest whole number whose product with `lines * pages` does not exceed 100. |
| Progress.FloorDivTwice | RateScrapper.py:267 | Floor division by `b` and then by `c` is floor division by `b * c`. |
| Progress.Overshoot | RateScrapper.py:267 | The step plus one, taken `lines * pages` times, is more than 100. |
| Progress.BarLinear | RateScrapper.py:298-301 | After `n` runs of `update_progress` the bar is the start plus `n` times the step plus one. |
| Progress.BarAppend | RateScrapper.py:298-301 | Calls made in two groups move the bar as far as all of them at once. |
| Progress.BarIncreases | RateScrapper.py:298-301 | Every call moves the bar strictly forward. |
| Report.Checked | RateScrapper.py:230-234 | The texts of the checked boxes, at most one per box. |
| Report.CheckedMembers | RateScrapper.py:230-234 | A page is selected exactly when some box with that text is checked. |
| Report.CheckedAppend | RateScrapper.py:230-234 | The checkbox loop keeps box order: checking two runs of boxes gives the first run's pages, then the second's. |
| Report.HeaderRow | RateScrapper.py:236-242 | The header row has one cell per name, holding that name; columns 0 to 3 use the default format and every later column the link format. |
| Report.RowFetches | RateScrapper.py:281-284 | The fetches of one line have one rate per URL, and there is one URL per page unless a page failed. |
| Report.RowFetchesSpec | RateScrapper.py:281-284 | Each selected page is called once, in selection order. Each rate is the answer to the request number it was sent as, or 0. The fetches stop exactly at the first page the program cannot call, with that page's crash. |
| Report.Written | RateScrapper.py:286-290 | The cell loop writes one cell per value; `WrittenRow` states their contents. |
| Report.WrittenRow | RateScrapper.py:279-290 | A written row is the four codes, unformatted, followed by each rate in order, rounded with `round` and unformatted. |
| Report.RowRates | RateScrapper.py:279-290 | Every selected page was called for a written row. Cell `4 + j` holds the rounded answer to request `m + j` for page `j`'s URL, where `m` counts the requests made before that line. |
| Report.NonEmpty | RateScrapper.py:269-271 | The number of lines the loop does not skip is at most the number of lines. |
| Report.NonEmptyCounts | RateScrapper.py:269-271 | `NonEmpty` is the number of indices whose line is non-empty, the lines the loop does not skip. |
| Report.StepSpec | RateScrapper.py:269-290 | One pass of the report loop either keeps the rows, or adds the row of a non-empty parsed line at its index plus one. A run that continues has made one call per page for a non-empty line and none for an empty one. |
| Report.RequestAdvances | RateScrapper.py:279-290 | The fetches and the row of a parsed non-empty line advance the run as `StepSpec` says. |
| Report.RowStep | RateScrapper.py:286-290 | Appending the row of a parsed non-empty line advances the run. |
| Report.RowsSpec | RateScrapper.py:269-290 | The rows of a run, crashed or not, are in order. Each belongs to a non-empty parsed line and sits at that line's index plus one, so never at row 0. Each holds the line's codes, then the rounded rates its fetches obtained, in page order, over requests numbered on from the calls made before the line. The row indices strictly increase. |
| Report.RowsStep | RateScrapper.py:269-290 | A pass of the loop keeps the rows in order. |
| Report.CallCount | RateScrapper.py:269-284 | A run that has not crashed has written one row per non-empty line and made exactly one call per page for each. |
| Report.CallsSoFar | RateScrapper.py:269-284 | The next request of a run still going is numbered on from one call per page for each non-empty line so far. |
| Report.FetchesNoZeroDivision | RateScrapper.py:281-283 | The fetches of a line never fail with `ZeroDivision`. |
| Report.RunNoZeroDivision | RateScrapper.py:269-290 | The report loop never fails with `ZeroDivision`: only the step computed before it can. |
| Report.GenerateRows | RateScrapper.py:259-290 | The rows of a whole run are in order, each with its line's codes and the rounded rates of its fetches, as `RowsSpec` states. |
| Report.GridRows | RateScrapper.py:286-290 | Every worksheet cell lies in a row that some write put there. |
| Report.GridCell | RateScrapper.py:286-290 | With strictly increasing row indices no row overwrites another: each cell is in the worksheet as its row wrote it. |
| Report.HeaderKept | RateScrapper.py:236-242 | The header cells stay as the header loop wrote them after any number of data rows. |
| Report.GridPast | RateScrapper.py:286-290 | Writing a row elsewhere leaves a cell as it was. |
| Report.FetchCrashStays | RateScrapper.py:281-283 | Once a page cannot be called, the later pages of the line are not tried. |
| Report.RunCrashStays | RateScrapper.py:269-279 | Once a line crashes the run, the later lines are not read. |
| Report.AllNonEmpty | RateScrapper.py:269-271 | A text whose lines are all non-empty skips none of them. |
| Report.CompletedCalls | RateScrapper.py:269-284 | A run over non-empty lines that does not crash calls every page once per line. |
| Report.CallsOvershoot | RateScrapper.py:298-301 | One call per line and page, each moving the bar by the step plus one, takes the bar past 100. |
| Report.CompletedOvershoot | RateScrapper.py:267-301 | On a completed run over non-empty lines the sum `update_progress` computes passes 100 before the final `setValue(100)`. |
| Report.StepSkips | RateScrapper.py:270-271 | An empty line, or any line after a crash, changes nothing. |
| Report.StepNoMatch | RateScrapper.py:273-279 | A non-empty line without a match stops the run with `NoMatch`. |
| Report.StepFetched | RateScrapper.py:279-290 | A parsed non-empty line is fetched and written. |
| Report.FetchFails | RateScrapper.py:282-283 | A page whose call fails stops the fetches of its line with that crash. |
| Report.FetchNext | RateScrapper.py:282-283 | A page whose URL is fetched adds that URL and its answer as the next request. |
| Report.PageCallCases | RateScrapper.py:282-283 | There are three outcomes for a page: not in the registry, a provider without a function, or the provider's URL. |
| Report.RequestOutcome | RateScrapper.py:279-290 | A parsed line adds its URLs to the calls, takes the crash of its fetches, and adds its row only when no page failed. |
| Report.GenerateRuns | RateScrapper.py:264-269 | A run is a `ZeroDivision` crash with nothing written when the step cannot be computed, and the report loop over all lines otherwise. |
| Report.SplitGroupCrashes | RateScrapper.py:264-279 | `"US USD\nGB GBP"` passes the validator, yet the run stops on its first line with `NoMatch("US USD")` before any request. |
| Report.TrailingBlankCrashes | RateScrapper.py:264-279 | `"US USD GB GBP\n "` passes the validator, yet the run never completes: the blank after the final line feed is a line that gives no match. |
| Report.FirstLineCrashes | RateScrapper.py:269-279 | For a text of two lines whose first line is non-empty and gives no match, the run stops on that line with no row and no call. |
| Report.LastLineCrashes | RateScrapper.py:269-279 | For a text of two lines whose second line is non-empty and gives no match, the run never completes. |
| Report.TwoLines | RateScrapper.py:264 | Two parts without a line feed, joined by one, are the two lines of the text. |
| Window.ReportWindow.constructor | RateScrapper.py:124-130 | A fresh window: nothing selected, an empty worksheet, a zero bar and step, no workbook closed yet and the buttons enabled. |
| Window.ReportWindow.InitExcel | RateScrapper.py:199-242 | The checked page texts are appended, in box order, to the selected pages. The worksheet then holds exactly the header row over the column names and every selected page. |
| Window.ReportWindow.UpdateProgress | RateScrapper.py:298-301 | The counter moves by the step plus one; the widget's clamp is left out. |
| Window.ReportWindow.FetchRow | RateScrapper.py:281-284 | The page loop of one line does what `RowFetches` says: the same URLs logged as requests, the same rates, the same crash. The bar moves once per URL. |
| Window.ReportWindow.FetchPage | RateScrapper.py:282-284 | One pass of the page loop advances `RowFetches` by one page. A failed page leaves the calls and the bar unchanged. A fetched page logs its URL, adds its rate and moves the bar once. |
| Window.ReportWindow.CallPage | RateScrapper.py:282-283 | The lookup and the `eval` call: the page's crash with no request made, or exactly one request for the page's URL and its rate or 0. |
| Window.ReportWindow.WriteRow | RateScrapper.py:286-290 | The cell loop puts exactly the cells of `Written` into the row and leaves every other cell as it was. |
| Window.ReportWindow.ReportLine | RateScrapper.py:269-290 | One pass of the report loop takes the window from showing a run to showing that run one line further on (`LineStep`). |
| Window.ReportWindow.ReportRequest | RateScrapper.py:279-290 | A parsed line's fetches as `RowFetches` says, with its row written only when no page failed. |
| Window.ReportWindow.ReportLines | RateScrapper.py:269-290 | The report loop leaves the window showing `RunLines` over every line: the calls, the worksheet and the bar. |
| Window.ReportWindow.RunReport | RateScrapper.py:264-296 | The step and the loop end as `Generate` says. A completed run closes the workbook, clears the pages, enables the controls and sets the bar to 100. A crashed run changes none of these and leaves the bar where the last call put it. A `ZeroDivision` leaves the step as it was. |
| Window.ReportWindow.ReportAndClose | RateScrapper.py:269-296 | The loop ends as `RunLines` says, never with `ZeroDivision`. Once every line is written, the workbook is closed, the pages cleared, the controls enabled and the bar set to 100; a crash changes none of these. |
| Window.ReportWindow.GenerateReport | RateScrapper.py:259-296 | The whole of `generate_report` agrees with `Generate` over the previously selected pages followed by the newly checked ones, covering the header, the rows, the calls, the crash, the closing steps and the step. With no page selected the step keeps its old value. |
| Window.ReportWindow.RunGenerateReport | RateScrapper.py:249-296 | A text the validator rejects changes nothing. Any other text runs `generate_report`. The run completes exactly when `Generate` does not crash, and otherwise ends with `Generate`'s crash. The calls, the worksheet, the closing steps, the bar and the step are as `GenerateReport` states. |
| Window.RequestMirrors | RateScrapper.py:279-290 | The fetches and the row of a parsed line take a window showing a run to one showing `RequestStep` of that run. |
| Window.GridSnoc | RateScrapper.py:286-290 | Writing one more row adds that row's cells to the worksheet. |

## Left out

- The Qt user interface is not modelled. This covers window dragging,
  maximizing and closing, the folder dialog, the error message box,
  `add_currency`'s editing of the text field, and loading the currency table
  from `currencies.config`. These are widgets, not logic.
- Window.ReportWindow.UpdateProgress: the progress bar widget is left out,
  so the counter keeps every sum `update_progress` computes.
  `QProgressBar.setValue` ignores a value outside 0..100, and
  `update_progress` reads the widget's value back, so the value on screen
  stops at the last sum within range. The model does not capture that.
- `xlsxwriter` is modelled as a map from (row, column) to a cell. The
  workbook file, its location and timestamped name, row heights, column
  widths and format attributes are not modelled. Formats are the tags
  `DefaultFormat`, `LinkFormat` and `Plain`.
- Providers.FailSoft: a `wise` answer is assumed to be a number.
  `wise_api` returns `data[-1]['value']` without `float()`
  (RateScrapper.py:118), so a null, a dict or a non-numeric string gets
  through. It then raises in `float(format(float(each_rate), ".2f"))`
  (RateScrapper.py:290) and ends the run mid-row. This crash is not
  modelled.
- The network call (`requests.get` with its timeout) and the JSON or text
  decoding of each answer are not modelled. They are the `answer` function
  of `Network`: one optional rate per request number and URL. The
  `print` of the warning is also left out.
- Floating point is left out. Rates are `real`, and the two-decimal rounding
  `float(format(float(x), ".2f"))` is a parameter `round`.
- Threading is left out. `run_generate_report` starts `generate_report` on a
  thread, and the model runs it in sequence.
- Other runs and threads can share `SCRAPING_REQUESTS`, a class attribute.
  The model keeps it as a field of the one window.
- `eval` is modelled as a lookup:
  - `eval(f"self.page_{link}")` is entry `link - 1` of a list of ten
    checkboxes;
  - `eval(f"{scrapper}(...)")` is the call of the provider's URL builder and
    fetch.
- Only ASCII is modelled. `\w`, `\s` and `str.upper()` are Unicode-aware in
  Python; the model restricts them to ASCII.
- `PERCENTAGE` starts as `None` in `RateScrapper.py` and as 0 in the
  model. It is
  always assigned before `update_progress` reads it.
- The order in which the cells of one row reach the worksheet is not
  stated. The contracts state the final map.
- `resource_path` and the application start-up code are not modelled.
