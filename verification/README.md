# Arc window commands, modelled in Dafny

This project models the `window` commands of a command-line controller for the Arc browser (`window.go`). Every command works by handing AppleScript programs to the automation host through `runApplescript`. The model covers:

- `window create --focus <search>` (windowCreateWithFocus):
  - probes whether Arc is running;
  - escapes the search text and embeds it in an AppleScript program that makes a window and then retries, up to ten times, to select the first tab whose title contains the search;
  - closes the windows Arc opened at start-up when it was not running before;
  - turns the `not_found` sentinel into an error.
- the plain `window create [url]`, which runs one script after the other and stops at the first failure;
- `window close [id...]`, which closes the front window, or each id in order, and stops at the first id that does not parse or the first close that fails.

The modules:

- `GoStrings`: Go's `strings.TrimSpace` and one-character `strings.ReplaceAll`.
- `SearchEscaping`: the two-pass escaping of the search, and how AppleScript reads a string literal back.
- `ArcPayloads`: the scripts, as the template plus the values filled into it, and their text.
- `HostCalls`: `runApplescript` as a `Host` object. The host records every script it is given and answers call number `k` with `answer(k)`. It also provides the fail-fast sequence of calls.
- `ArcScripts`: what the embedded AppleScript does once Arc runs it. This covers the bounded tab search, with time counted in half-seconds, and the clean-up loop.
- `WindowCommands`: the commands themselves. Each is a method on the host, specified by a function that gives the scripts it issues and the error it returns; lemmas state what those functions promise.

## Model

| member | source | states |
|---|---|---|
| GoStrings.TrimSpaceEqualsIff | window.go:96 | for a word `w`, `TrimSpace(s) == w` holds exactly when `s` is `w` surrounded by white space only (both directions) |
| GoStrings.TrimSpaceToPadded | window.go:96 | the trimmed output is the original with only white space removed around it |
| GoStrings.PaddedToTrimSpace | window.go:154 | a word padded with white space trims back to that word |
| GoStrings.ReplaceAllAppend | window.go:106-107 | replacing one character works character by character: it distributes over concatenation |
| SearchEscaping.EscapeSnoc | window.go:106-107 | the two passes together escape each character on its own: the second pass never re-escapes what the first produced |
| SearchEscaping.EscapeLength | window.go:106-107 | the escaped text is longer than the search by exactly the number of backslashes and quotes in it |
| SearchEscaping.ReadLiteral | window.go:120 | a literal read successfully ends strictly inside the text it was read from |
| SearchEscaping.ReadAcrossEscape | window.go:120 | reading escaped text as a literal body yields the original text, and reading continues right after it |
| SearchEscaping.EmbedRoundTrip | window.go:106-120 | the escaped search followed by a quote reads as a literal whose value is the search, closed at that quote and no earlier |
| SearchEscaping.EscapeRoundTrip | window.go:106-107 | unescaping the escaped search by AppleScript's literal rules gives back the search exactly |
| SearchEscaping.EscapeInjective | window.go:106-107 | two different searches never escape to the same text |
| SearchEscaping.EscapeEndsWithEvenRun | window.go:106-107 | the escaped text never ends with a dangling backslash: its final run of backslashes is even |
| SearchEscaping.EscapedQuotesAreEscaped | window.go:106-120 | every double quote in the escaped text is preceded by an odd run of backslashes, so none can end the literal early |
| ArcPayloads.MakeWindowClause | window.go:100-103 | the incognito clause is chosen exactly when `incognito` is set, the plain clause exactly when it is not |
| ArcPayloads.DecimalDigits | window.go:237 | `%d` of a window id is a non-empty string of decimal digits |
| ArcPayloads.DecimalDigitsValue | window.go:237 | the digits `%d` writes for an id denote that id |
| ArcPayloads.DecimalValue | window.go:232-237 | `%d` of any id that strconv.Atoi can return, negative ones included, is a numeral denoting that id |
| ArcPayloads.EmbeddedLiteral | window.go:120 | after any script head, the quoted escaped search reads back as the search, and the script resumes with the text after the closing quote |
| ArcPayloads.PrimaryScriptCarriesSearch | window.go:109-134 | in the primary payload, the literal after `contains` has the original search as its value and ends where the fixed rest of the script begins |
| HostCalls.FailFastStops | window.go:64-80 | the scripts issued are a prefix of the sequence, and every one before the last succeeded. The run fails exactly when the last issued script failed, and returns that failure. It succeeds exactly when every script was issued and every one succeeded. |
| HostCalls.Host.Run | window.go:95 | a call appends its script to the host's trace and returns the host's answer for that call number |
| ArcScripts.LowerAgree | window.go:119 | two characters are equal case aside exactly when they are the same, or one is a capital letter and the other its small letter |
| ArcScripts.Contains | window.go:120 | `contains` holds exactly when the needle occurs at some position of the title |
| ArcScripts.AtIff | window.go:119-120 | at a given position, the folded search occurs in the folded title exactly when every pair of characters there agrees case aside |
| ArcScripts.MatchesCharwise | window.go:119-120 | the `ignoring case` test holds exactly when, at some position of the title, each character of the search equals its counterpart case aside |
| ArcScripts.ContainsShift | window.go:120 | past a non-matching first position, the title contains the needle exactly when its tail does |
| ArcScripts.FirstHitFromIsFirst | window.go:116-128 | the scan from position `k` stops at the first tab at or after `k` whose title was read, matches and could be selected. It finds none exactly when no tab there qualifies. |
| ArcScripts.FirstHitIsFirst | window.go:116-128 | the scan selects the first qualifying tab in order, and finds none exactly when no tab qualifies |
| ArcScripts.Sentinel | window.go:123-133 | the script returns `found` exactly when the search succeeded, and `not_found` exactly when it exhausted its attempts |
| ArcScripts.SearchFromSpec | window.go:113-131 | from any attempt, the result is the first hit of the first attempt that has one, and every earlier attempt had none. Not found means no attempt up to the tenth had a hit. The waiting grows by one half-second per attempt moved past. |
| ArcScripts.SearchFindsFirstHit | window.go:111-133 | `found` selects tab `tabIndex` (1-based), which is the first tab of that attempt that qualifies, and no earlier attempt had any qualifying tab. `not_found` means none of the ten attempts had one. The script waits 2 half-seconds, then 1 after each attempt except the last, so at most 11; it waits exactly 11 when nothing is found. |
| ArcScripts.RunSearch | window.go:111-133 | the nested `repeat` loops compute exactly the specified search outcome |
| ArcScripts.CloseAllButFirst | window.go:144-148 | the clean-up leaves only the first window open (nothing when there are no windows), and closes the others from the last to the second |
| WindowCommands.WasRunning | window.go:94-98 | a failed probe counts as Arc running |
| WindowCommands.NotRunningOnlyOnFalse | window.go:94-98 | Arc counts as not running exactly when the probe succeeded and printed `false`, white space aside |
| WindowCommands.Interpret | window.go:154-156 | the only error the verdict produces is the not-found error naming the search |
| WindowCommands.NotFoundOnlyOnSentinel | window.go:154-158 | the verdict is the not-found error exactly when the output is `not_found` padded with white space, and success on any other output (both directions) |
| WindowCommands.FocusRun | window.go:92-159 | the scripts issued are the probe, then the primary payload built from the escaped search. The clean-up follows exactly when the primary payload succeeded and Arc was not running. A primary error, then a clean-up error, is returned as it is; otherwise the result is the verdict on the primary output. |
| WindowCommands.FocusVerdict | window.go:136-158 | the command fails with not-found exactly when the primary payload printed `not_found` and no payload failed. It succeeds exactly when the primary printed anything else and no payload failed. |
| WindowCommands.CreateWithFocus | window.go:92-159 | the method issues exactly the scripts of the focus run and returns its error |
| WindowCommands.FocusOutcomeFollowsSearch | window.go:109-158 | when Arc runs the payload as written and the clean-up does not fail, the command fails exactly when the search loop exhausted its attempts |
| WindowCommands.PlainCreate | window.go:52-82 | without `--focus`: the window is made first and the probe never runs. The URL tab comes second when a URL was given and the window was made. The command succeeds exactly when every script was issued and succeeded. |
| WindowCommands.FocusIgnoresUrl | window.go:46-50 | with `--focus`, the URL argument does not change anything the command does |
| WindowCommands.CreatePlain | window.go:52-82 | the method issues the plain scripts in fail-fast order and returns the first failure |
| WindowCommands.Create | window.go:47-83 | a non-empty `--focus` runs windowCreateWithFocus, and otherwise the plain path runs |
| WindowCommands.CloseFailFast | window.go:231-241 | the ids are closed in argument order, one script each, and every id closed parsed. The loop stops at the first id that does not parse, issuing no script for it and reporting that id. It also stops at the first failed close, reporting the host's error. It succeeds exactly when every id parsed and every close succeeded. |
| WindowCommands.CloseFrontOnly | window.go:224-229 | with no argument, exactly one script closes the front window, and only its failure is reported |
| WindowCommands.CloseEach | window.go:231-242 | the `for` loop issues exactly the scripts of the specified close run and returns its error |
| WindowCommands.Close | window.go:223-243 | the method issues exactly the scripts of the close command and returns its error |

## Left out

- `runApplescript` itself is not part of this model. The host is an oracle: it answers each call by its number and records the script. How AppleScript runs the text, and the timing and concurrency of the real host, are not modelled.
- The `window list` command is not modelled: JSON decoding of the host's output and rendering the table to a terminal are I/O through libraries. The same goes for the `go:embed` script it runs.
- Cobra's command and flag wiring is not modelled. The `create` command's limit of one argument (`cobra.MaximumNArgs(1)`) is a precondition.
- `strconv.Atoi` is a parameter `atoi` (a partial function). Its error value becomes `BadWindowId(arg)`, naming the argument, in place of Go's `*strconv.NumError`.
- `WindowCommands.Interpret`: the error message `no tab found with title containing %q` is modelled as `NoTabFound(search)` carrying the unescaped search. Go's `%q` quoting is not modelled.
- `ArcScripts.Lower`: `ignoring case` is modelled as ASCII case folding. AppleScript's Unicode case rules are not modelled.
- Time is counted in whole half-seconds (`delay 1` is 2, `delay 0.5` is 1). Real clock time is not modelled.
- `ArcScripts.RunSearch`: what `activate` and `tell tab tabIndex to select` do to Arc is not modelled. Each tab carries whether they went through inside the `try`. Each attempt's view of the tabs is a parameter.
- `ArcScripts.CloseAllButFirst` works on a list of window ids standing for Arc's windows, not on Arc itself.
- `SearchEscaping.ReadLiteral`: only the `\\` and `\"` escapes of AppleScript literals are modelled. A literal using any other escape is rejected, since the escaping never produces one.
- The URL given to `window create <url>` is inserted without escaping, as the command does. What AppleScript makes of a URL containing a quote is not modelled.
- Text is taken as already decoded into characters: the host's output bytes and the search, which arrives from the command line as a Go byte string. UTF-8 decoding is not modelled. For valid UTF-8 nothing is lost, since the backslash and the double quote are single ASCII bytes that never occur inside a multi-byte character.
- The escaping passes newlines, tabs and other control characters through unchanged, as the program does, and `SearchEscaping.ReadLiteral` accepts them inside a literal body. `SearchEscaping.EmbedRoundTrip` therefore relies on AppleScript accepting such characters inside a string literal.
- The program text of each script is `ArcPayloads.Text`. That the primary payload's text has the shape `Quoted(SearchScriptHead(...), Escape(search), SearchScriptRest())` holds by the definition of `Text`, not by a separate lemma. `ArcPayloads.PrimaryScriptCarriesSearch` is stated on that shape.
- Several definitions model source lines directly and carry no `ensures` of their own; lemmas state what they promise:
  - `SearchEscaping.Escape` (window.go:106-107): by `EscapeSnoc`, `EscapeLength`, `EscapeRoundTrip`, `EmbedRoundTrip`, `EscapeInjective`, `EscapeEndsWithEvenRun` and `EscapedQuotesAreEscaped`.
  - `GoStrings.TrimSpace` (window.go:96, 154): by `TrimSpaceEqualsIff`, `TrimSpaceToPadded` and `PaddedToTrimSpace`.
  - `GoStrings.ReplaceAll` (window.go:106-107): by `ReplaceAllAppend`, and through `Escape` by `EscapeSnoc`.
  - `ArcScripts.Lower`, `ArcScripts.LowerAll` and `ArcScripts.Matches` (window.go:119-120): by `LowerAgree`, `AtIff` and `MatchesCharwise`.
  - `ArcScripts.FirstHitFrom` and `ArcScripts.FirstHit` (window.go:116-128): by `FirstHitFromIsFirst` and `FirstHitIsFirst`.
  - `ArcScripts.SearchFrom` and `ArcScripts.Search` (window.go:111-133): by `SearchFromSpec` and `SearchFindsFirstHit`, and `RunSearch` is proved equal to `Search`.
  - `ArcPayloads.PrimaryScript` and `ArcPayloads.Text` (window.go:109-134, and the other templates at 54-61, 69-73, 78, 95, 144-149, 225 and 237): by `PrimaryScriptCarriesSearch` and `MakeWindowClause`.
  - `ArcPayloads.Decimal` (window.go:237): by `DecimalValue`.
  - `HostCalls.FailFast` (window.go:64-80): by `FailFastStops`.
  - `WindowCommands.PlainScripts` and `WindowCommands.CreateRun` (window.go:47-82): by `PlainCreate` and `FocusIgnoresUrl`.
  - `WindowCommands.CloseFrom` and `WindowCommands.CloseRun` (window.go:224-242): by `CloseFailFast` and `CloseFrontOnly`.
