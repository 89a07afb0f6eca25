/**
 * The AppleScript programs the window commands hand to Arc. Each is a fixed
 * template, some with one value filled in by `fmt.Sprintf`; a Script names
 * the template and carries those values, and `Text` is the program text.
 */
module ArcPayloads {
  import opened Wrappers
  import opened SearchEscaping

  datatype Script =
    | CreateAndSearch(makeWindow: string, escaped: string) // the primary payload of --focus
    | IsRunning                                          // the liveness probe
    | CloseExtraWindows                                  // the clean-up payload
    | MakeWindow(incognito: bool)                        // plain `window create`
    | NewTab(url: string)                                // plain `window create <url>`
    | Activate
    | CloseFront                                         // `window close` with no id
    | CloseWindow(id: int)                               // `window close <id>...`

  const PlainWindowClause: string := "make new window"
  const IncognitoWindowClause: string := "make new window with properties {incognito:true}"

  /** The window-creation line of the primary payload. */
  function MakeWindowClause(incognito: bool): (clause: string)
    ensures clause == IncognitoWindowClause <==> incognito
    ensures clause == PlainWindowClause <==> !incognito
  {
    if incognito then IncognitoWindowClause else PlainWindowClause
  }

  /** The primary payload up to the opening quote of the search literal. */
  function SearchScriptHead(makeWindow: string): string {
    "tell application \"Arc\"\n\t" + makeWindow + "\n\tdelay 1\n\tset maxRetries to 10\n"
    + "\trepeat with attempt from 1 to maxRetries\n\t\ttell front window\n\t\t\tset tabIndex to 1\n"
    + "\t\t\trepeat with aTab in every tab\n\t\t\t\ttry\n\t\t\t\t\tset tabTitle to title of aTab\n"
    + "\t\t\t\t\tignoring case\n\t\t\t\t\t\tif tabTitle contains \""
  }

  /** The primary payload after the closing quote of the search literal. */
  function SearchScriptRest(): string {
    " then\n\t\t\t\t\t\t\ttell tab tabIndex to select\n\t\t\t\t\t\t\tactivate\n"
    + "\t\t\t\t\t\t\treturn \"found\"\n\t\t\t\t\t\tend if\n\t\t\t\t\tend ignoring\n\t\t\t\tend try\n"
    + "\t\t\t\tset tabIndex to tabIndex + 1\n\t\t\tend repeat\n\t\tend tell\n"
    + "\t\tif attempt < maxRetries then delay 0.5\n\tend repeat\n\tactivate\n\treturn \"not_found\"\nend tell"
  }

  /** A script text with a string literal: its opening part, the literal's body, the closing quote, the rest. */
  function Quoted(head: string, body: string, rest: string): string {
    head + body + [DoubleQuote] + rest
  }

  /** `%d` of a window id. */
  function DecimalDigits(n: nat): (s: string)
    ensures s != [] && forall k :: 0 <= k < |s| ==> '0' <= s[k] <= '9'
  {
    if n < 10 then ["0123456789"[n]] else DecimalDigits(n / 10) + ["0123456789"[n % 10]]
  }

  /** The number a string of decimal digits denotes. */
  function DigitsValue(s: string): int
    requires forall k :: 0 <= k < |s| ==> '0' <= s[k] <= '9'
  {
    if s == [] then 0 else 10 * DigitsValue(s[..|s| - 1]) + (s[|s| - 1] as int - '0' as int)
  }

  /** `%d` writes the digits of the id itself. */
  lemma {:induction false} DecimalDigitsValue(n: nat)
    ensures DigitsValue(DecimalDigits(n)) == n
    decreases n
  {
    var s := DecimalDigits(n);
    if n >= 10 {
      assert s[..|s| - 1] == DecimalDigits(n / 10);
      DecimalDigitsValue(n / 10);
    }
  }

  function Decimal(i: int): string {
    if i < 0 then "-" + DecimalDigits(-i) else DecimalDigits(i)
  }

  predicate AllDigits(s: string) {
    forall k :: 0 <= k < |s| ==> '0' <= s[k] <= '9'
  }

  /** The integer a decimal numeral denotes: digits, optionally after a minus sign. */
  function NumeralValue(s: string): Option<int> {
    if s != [] && s[0] == '-' then
      if |s| > 1 && AllDigits(s[1..]) then Some(-DigitsValue(s[1..])) else None
    else if s != [] && AllDigits(s) then Some(DigitsValue(s))
    else None
  }

  lemma {:induction false} NumeralOfDigits(d: string)
    requires d != [] && AllDigits(d)
    ensures NumeralValue(d) == Some(DigitsValue(d))
    ensures NumeralValue("-" + d) == Some(-DigitsValue(d))
  {
    var m := "-" + d;
    assert m[0] == '-' && m[1..] == d;
    assert d[0] != '-';
  }

  /** `%d` of any id, negative ones included, is a numeral denoting that id. */
  lemma {:induction false} DecimalValue(i: int)
    ensures NumeralValue(Decimal(i)) == Some(i)
  {
    var d := DecimalDigits(if i < 0 then -i else i);
    DecimalDigitsValue(if i < 0 then -i else i);
    NumeralOfDigits(d);
  }

  /** The program text `runApplescript` sends. */
  function Text(s: Script): string {
    match s
    case CreateAndSearch(makeWindow, escaped) => Quoted(SearchScriptHead(makeWindow), escaped, SearchScriptRest())
    case IsRunning => "application \"Arc\" is running"
    case CloseExtraWindows =>
      "tell application \"Arc\"\n\tset windowCount to count of windows\n"
      + "\trepeat with i from windowCount to 2 by -1\n\t\tclose window i\n\tend repeat\nend tell"
    case MakeWindow(incognito) =>
      if incognito then "tell application \"Arc\"\n\t\t\t\t\tmake new window with properties {incognito:true}\n\t\t\t\t\tactivate\n\t\t\t\tend tell"
      else "tell application \"Arc\"\n\t\t\t\t\tmake new window\n\t\t\t\tend tell"
    case NewTab(url) =>
      "tell application \"Arc\"\n\t\t\t\t\ttell front window\n\t\t\t\t\t\tmake new tab with properties {URL:\""
      + url + "\"}\n\t\t\t\t\tend tell\n\t\t\t\tend tell"
    case Activate => "tell application \"Arc\" to activate"
    case CloseFront => "tell application \"Arc\" to tell front window to close"
    case CloseWindow(id) => "tell application \"Arc\" to tell window " + Decimal(id) + " to close"
  }

  /** The primary payload windowCreateWithFocus builds. */
  function PrimaryScript(incognito: bool, search: string): Script {
    CreateAndSearch(MakeWindowClause(incognito), Escape(search))
  }

  /** `p` starts with `head`, and right after it comes a literal reading as `body`, followed by `rest`. */
  predicate LiteralAfter(p: string, head: string, body: string, rest: string) {
    |head| <= |p| && p[..|head|] == head && ReadLiteral(p[|head|..]) == Some(Literal(body, rest))
  }

  /** The escaped search, closed by a quote, reads back as the search after any head. */
  lemma {:induction false} EmbeddedLiteral(head: string, search: string, rest: string)
    ensures LiteralAfter(Quoted(head, Escape(search), rest), head, search, rest)
  {
    var p := Quoted(head, Escape(search), rest);
    assert p[..|head|] == head;
    assert p[|head|..] == Escape(search) + [DoubleQuote] + rest;
    EmbedRoundTrip(search, rest);
  }

  /**
   * The search literal of the primary payload reads back as the original
   * search. The text of `PrimaryScript(incognito, search)` is, by the
   * definition of `Text`, the fixed head with the chosen window clause, the
   * escaped search, a quote and the fixed rest; the literal that starts
   * after the head has the search as its value and closes exactly where
   * the fixed rest of the script begins.
   */
  lemma {:induction false} PrimaryScriptCarriesSearch(incognito: bool, search: string)
    ensures var head := SearchScriptHead(MakeWindowClause(incognito));
            LiteralAfter(Quoted(head, Escape(search), SearchScriptRest()), head, search, SearchScriptRest())
  {
    EmbeddedLiteral(SearchScriptHead(MakeWindowClause(incognito)), search, SearchScriptRest());
  }
}
