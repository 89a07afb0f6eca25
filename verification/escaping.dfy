/**
 * Embedding the user's search text in an AppleScript string literal.
 *
 * `Escape` is the two-pass escaping of windowCreateWithFocus: every
 * backslash is doubled first, then every double quote gets a backslash in
 * front. `ReadLiteral` is the other side of the contract: how AppleScript
 * reads the body of a `"..."` literal (a backslash takes the next character
 * literally, an unescaped quote ends the literal).
 */
module SearchEscaping {
  import opened Wrappers
  import opened GoStrings

  const Backslash: char := '\\'
  const DoubleQuote: char := '"'

  /** The escaping, exactly as the two `strings.ReplaceAll` calls perform it. */
  function Escape(search: string): string {
    var doubled := ReplaceAll(search, Backslash, [Backslash, Backslash]);
    ReplaceAll(doubled, DoubleQuote, [Backslash, DoubleQuote])
  }

  /** What one character of the search becomes in the escaped text. */
  function EscapeChar(c: char): string {
    if c == Backslash then [Backslash, Backslash]
    else if c == DoubleQuote then [Backslash, DoubleQuote]
    else [c]
  }

  /**
   * The two passes together act one character at a time: no character other
   * than a backslash or a double quote is changed, and those two each gain
   * exactly one backslash in front (the quote pass does not re-escape the
   * backslashes the first pass produced, nor the other way round).
   */
  lemma {:induction false} EscapeSnoc(s: string, c: char)
    ensures Escape(s + [c]) == Escape(s) + EscapeChar(c)
  {
    var s' := s + [c];
    assert s'[..|s'| - 1] == s;
    var d := ReplaceAll(s, Backslash, [Backslash, Backslash]);
    var block := if c == Backslash then [Backslash, Backslash] else [c];
    assert ReplaceAll(s', Backslash, [Backslash, Backslash]) == d + block;
    ReplaceAllAppend(d, block, DoubleQuote, [Backslash, DoubleQuote]);
    if c == Backslash {
      assert block[..1] == [Backslash] && [Backslash][..0] == [];
      assert ReplaceAll([Backslash], DoubleQuote, [Backslash, DoubleQuote]) == [Backslash];
      assert ReplaceAll(block, DoubleQuote, [Backslash, DoubleQuote]) == block;
    } else {
      assert block[..0] == [];
    }
  }

  /** The escaped text is as long as the search plus one per special character. */
  lemma {:induction false} EscapeLength(s: string)
    ensures |Escape(s)| == |s| + |SpecialsOf(s)|
    decreases |s|
  {
    if s != [] {
      var s', c := s[..|s| - 1], s[|s| - 1];
      assert s == s' + [c];
      EscapeSnoc(s', c);
      EscapeLength(s');
      assert SpecialsOf(s) == SpecialsOf(s') + (if c == Backslash || c == DoubleQuote then [c] else []);
    }
  }

  /** The backslashes and double quotes of `s`, in order. */
  function SpecialsOf(s: string): (r: string)
    ensures |r| <= |s|
    ensures forall k :: 0 <= k < |r| ==> r[k] == Backslash || r[k] == DoubleQuote
  {
    if s == [] then []
    else SpecialsOf(s[..|s| - 1]) + (if s[|s| - 1] == Backslash || s[|s| - 1] == DoubleQuote then [s[|s| - 1]] else [])
  }

  // ---------------------------------------------------------------------------
  // Reading an AppleScript string literal back

  /** The decoded body of a literal and the script text after its closing quote. */
  datatype Literal = Literal(body: string, rest: string)

  function PrependBody(p: string, o: Option<Literal>): Option<Literal> {
    match o
    case None => None
    case Some(l) => Some(Literal(p + l.body, l.rest))
  }

  /**
   * Reads the body of a string literal whose opening quote has just been
   * consumed: `\\` and `\"` stand for a backslash and a quote, an unescaped
   * quote closes the literal, and a literal that never closes, or uses an
   * escape the escaping never produces, is rejected.
   */
  function ReadLiteral(t: string): (r: Option<Literal>)
    ensures r.Some? ==> |r.value.rest| < |t|
    decreases |t|
  {
    if t == [] then None
    else if t[0] == DoubleQuote then Some(Literal([], t[1..]))
    else if t[0] == Backslash then
      if |t| >= 2 && (t[1] == Backslash || t[1] == DoubleQuote) then PrependBody([t[1]], ReadLiteral(t[2..]))
      else None
    else PrependBody([t[0]], ReadLiteral(t[1..]))
  }

  /** AppleScript's unescaping of a whole literal body (the text between the quotes). */
  function Unescape(t: string): Option<string> {
    match ReadLiteral(t + [DoubleQuote])
    case Some(l) => if l.rest == [] then Some(l.body) else None
    case None => None
  }

  lemma {:induction false} ReadEscapedChar(c: char, u: string)
    ensures ReadLiteral(EscapeChar(c) + u) == PrependBody([c], ReadLiteral(u))
  {
    var t := EscapeChar(c) + u;
    if c == Backslash || c == DoubleQuote {
      assert t[0] == Backslash && t[1] == c && t[2..] == u;
    } else {
      assert t[0] == c && t[1..] == u;
    }
  }

  lemma {:induction false} PrependTwice(a: string, b: string, o: Option<Literal>)
    ensures PrependBody(a, PrependBody(b, o)) == PrependBody(a + b, o)
  {
    match o
    case None =>
    case Some(l) => assert a + (b + l.body) == (a + b) + l.body;
  }

  /** The step of ReadAcrossEscape, over any text `e` read as `p`. */
  lemma {:induction false} ReadAcrossStep(e: string, p: string, c: char, u: string)
    requires ReadLiteral(e + (EscapeChar(c) + u)) == PrependBody(p, ReadLiteral(EscapeChar(c) + u))
    ensures ReadLiteral((e + EscapeChar(c)) + u) == PrependBody(p + [c], ReadLiteral(u))
  {
    assert (e + EscapeChar(c)) + u == e + (EscapeChar(c) + u);
    ReadEscapedChar(c, u);
    PrependTwice(p, [c], ReadLiteral(u));
  }

  /** Reading across escaped text gives back the unescaped text, and reading goes on after it. */
  lemma {:induction false} ReadAcrossEscape(p: string, u: string)
    ensures ReadLiteral(Escape(p) + u) == PrependBody(p, ReadLiteral(u))
    decreases |p|
  {
    if p == [] {
      assert Escape(p) == [];
      assert Escape(p) + u == u;
      match ReadLiteral(u)
      case None =>
      case Some(l) => assert p + l.body == l.body;
    } else {
      var p', c := p[..|p| - 1], p[|p| - 1];
      assert p == p' + [c];
      EscapeSnoc(p', c);
      ReadAcrossEscape(p', EscapeChar(c) + u);
      ReadAcrossStep(Escape(p'), p', c, u);
    }
  }

  /**
   * Embedding the escaped search between quotes in any script text: the
   * literal ends exactly at the quote written after the escaped text (never
   * earlier), its value is the original search, and the script goes on with
   * the text that followed.
   */
  lemma {:induction false} EmbedRoundTrip(search: string, tail: string)
    ensures ReadLiteral(Escape(search) + [DoubleQuote] + tail) == Some(Literal(search, tail))
  {
    assert Escape(search) + [DoubleQuote] + tail == Escape(search) + ([DoubleQuote] + tail);
    ReadAcrossEscape(search, [DoubleQuote] + tail);
    assert ([DoubleQuote] + tail)[1..] == tail;
    assert search + [] == search;
  }

  /** Unescaping the escaped search by the literal rules gives back the search exactly. */
  lemma {:induction false} EscapeRoundTrip(search: string)
    ensures Unescape(Escape(search)) == Some(search)
  {
    EmbedRoundTrip(search, []);
    assert Escape(search) + [DoubleQuote] + [] == Escape(search) + [DoubleQuote];
  }

  /** Hence two different searches never produce the same escaped text. */
  lemma {:induction false} EscapeInjective(a: string, b: string)
    requires Escape(a) == Escape(b)
    ensures a == b
  {
    EscapeRoundTrip(a);
    EscapeRoundTrip(b);
  }

  // ---------------------------------------------------------------------------
  // Quotes in the escaped text are preceded by an odd run of backslashes

  /** The number of backslashes `t` ends with. */
  function BackslashRun(t: string): nat {
    if t != [] && t[|t| - 1] == Backslash then BackslashRun(t[..|t| - 1]) + 1 else 0
  }

  lemma {:induction false} RunAfter(t: string, c: char)
    ensures BackslashRun(t + [c]) == if c == Backslash then BackslashRun(t) + 1 else 0
  {
    assert (t + [c])[..|t|] == t;
  }

  /** Appending the escape of one character keeps the final backslash run even. */
  lemma {:induction false} EvenRunStep(t: string, c: char)
    requires BackslashRun(t) % 2 == 0
    ensures BackslashRun(t + EscapeChar(c)) % 2 == 0
  {
    var n := BackslashRun(t);
    if c == Backslash {
      RunAfter(t, Backslash);
      RunAfter(t + [Backslash], Backslash);
      assert t + EscapeChar(c) == t + [Backslash] + [Backslash];
      assert (n + 2) % 2 == n % 2;
    } else {
      var pre := if c == DoubleQuote then t + [Backslash] else t;
      assert t + EscapeChar(c) == pre + [c];
      RunAfter(pre, c);
    }
  }

  /** The escaped text never ends in the middle of an escape: its final backslash run is even. */
  lemma {:induction false} EscapeEndsWithEvenRun(s: string)
    ensures BackslashRun(Escape(s)) % 2 == 0
    decreases |s|
  {
    if s == [] {
      assert Escape(s) == [];
    } else {
      var s', c := s[..|s| - 1], s[|s| - 1];
      assert s == s' + [c];
      EscapeSnoc(s', c);
      EscapeEndsWithEvenRun(s');
      EvenRunStep(Escape(s'), c);
    }
  }

  /** Every double quote of `t` is preceded by an odd number of backslashes. */
  ghost predicate QuotesEscaped(t: string) {
    forall i :: 0 <= i < |t| && t[i] == DoubleQuote ==> BackslashRun(t[..i]) % 2 == 1
  }

  /** A quote the escape of `c` adds has the backslash before it, after an even run. */
  lemma {:induction false} EscapedQuoteRun(t: string, c: char, i: nat)
    requires BackslashRun(t) % 2 == 0
    requires |t| <= i < |t| + |EscapeChar(c)| && EscapeChar(c)[i - |t|] == DoubleQuote
    ensures BackslashRun((t + EscapeChar(c))[..i]) % 2 == 1
  {
    assert c == DoubleQuote && i == |t| + 1;
    assert (t + EscapeChar(c))[..i] == t + [Backslash];
    RunAfter(t, Backslash);
  }

  /** Appending the escape of one character to a text ending in an even run keeps its quotes escaped. */
  lemma {:induction false} QuotesStep(t: string, c: char)
    requires QuotesEscaped(t) && BackslashRun(t) % 2 == 0
    ensures QuotesEscaped(t + EscapeChar(c))
  {
    var t' := t + EscapeChar(c);
    forall i | 0 <= i < |t'| && t'[i] == DoubleQuote
      ensures BackslashRun(t'[..i]) % 2 == 1
    {
      if i < |t| {
        assert t'[..i] == t[..i];
      } else {
        EscapedQuoteRun(t, c, i);
      }
    }
  }

  /**
   * Every double quote of the escaped text is preceded by an odd number of
   * backslashes, so AppleScript takes it as part of the literal and not as
   * its end.
   */
  lemma {:induction false} EscapedQuotesAreEscaped(s: string)
    ensures forall i :: 0 <= i < |Escape(s)| && Escape(s)[i] == DoubleQuote ==>
              BackslashRun(Escape(s)[..i]) % 2 == 1
    decreases |s|
  {
    if s == [] {
      assert Escape(s) == [];
    } else {
      var s', c := s[..|s| - 1], s[|s| - 1];
      assert s == s' + [c];
      EscapeSnoc(s', c);
      EscapedQuotesAreEscaped(s');
      EscapeEndsWithEvenRun(s');
      QuotesStep(Escape(s'), c);
      assert QuotesEscaped(Escape(s));
    }
  }
}
