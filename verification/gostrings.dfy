/**
 * The two functions of Go's `strings` package that the window commands rely
 * on: `TrimSpace` (applied to every output the automation host sends back)
 * and `ReplaceAll` with a one-character pattern (used to escape the search).
 * Strings are sequences of Unicode code points, as Go sees them after
 * decoding the host's UTF-8 output.
 */
module GoStrings {

  /** Go's `unicode.IsSpace`: the ASCII spaces, NEL, NBSP and Unicode's White_Space set. */
  predicate IsSpace(c: char) {
    var n := c as int;
    n == 0x20 || (0x09 <= n <= 0x0D) || n == 0x85 || n == 0xA0 || n == 0x1680
    || (0x2000 <= n <= 0x200A) || n == 0x2028 || n == 0x2029 || n == 0x202F
    || n == 0x205F || n == 0x3000
  }

  predicate AllSpace(s: string) {
    forall k :: 0 <= k < |s| ==> IsSpace(s[k])
  }

  /** Drops the leading white space. */
  function TrimLeft(s: string): string {
    if s != [] && IsSpace(s[0]) then TrimLeft(s[1..]) else s
  }

  /** Drops the trailing white space. */
  function TrimRight(s: string): string {
    if s != [] && IsSpace(s[|s| - 1]) then TrimRight(s[..|s| - 1]) else s
  }

  /** Go's `strings.TrimSpace`. */
  function TrimSpace(s: string): string {
    TrimRight(TrimLeft(s))
  }

  /** TrimLeft keeps a suffix of `s` that does not start with white space, and drops only white space. */
  lemma {:induction false} TrimLeftShape(s: string)
    ensures var r := TrimLeft(s);
            |r| <= |s| && r == s[|s| - |r|..] && AllSpace(s[..|s| - |r|]) && (r == [] || !IsSpace(r[0]))
    decreases |s|
  {
    if s != [] && IsSpace(s[0]) {
      var t := s[1..];
      TrimLeftShape(t);
      var r := TrimLeft(t);
      assert s[|s| - |r|..] == t[|t| - |r|..];
      var dropped := s[..|s| - |r|];
      forall k | 0 <= k < |dropped|
        ensures IsSpace(dropped[k])
      {
        if k > 0 {
          assert dropped[k] == t[..|t| - |r|][k - 1];
        }
      }
    }
  }

  /** TrimRight keeps a prefix of `s` that does not end with white space, and drops only white space. */
  lemma {:induction false} TrimRightShape(s: string)
    ensures var r := TrimRight(s);
            |r| <= |s| && r == s[..|r|] && AllSpace(s[|r|..]) && (r == [] || !IsSpace(r[|r| - 1]))
    decreases |s|
  {
    if s != [] && IsSpace(s[|s| - 1]) {
      var t := s[..|s| - 1];
      TrimRightShape(t);
      var r := TrimRight(t);
      assert s[..|r|] == t[..|r|];
      var dropped := s[|r|..];
      forall k | 0 <= k < |dropped|
        ensures IsSpace(dropped[k])
      {
        if k < |dropped| - 1 {
          assert dropped[k] == t[|r|..][k];
        }
      }
    }
  }

  /** `s` is the word `w` with nothing but white space around it. */
  ghost predicate Padded(s: string, w: string) {
    exists i, j :: 0 <= i <= j <= |s| && AllSpace(s[..i]) && s[i..j] == w && AllSpace(s[j..])
  }

  /** A word that neither starts nor ends with white space (as "false" and "not_found"). */
  predicate Word(w: string) {
    w != [] && !IsSpace(w[0]) && !IsSpace(w[|w| - 1])
  }

  lemma {:induction false} TrimLeftOfPadding(pad: string, s: string)
    requires AllSpace(pad)
    requires s == [] || !IsSpace(s[0])
    ensures TrimLeft(pad + s) == s
    decreases |pad|
  {
    if pad != [] {
      assert (pad + s)[1..] == pad[1..] + s;
      TrimLeftOfPadding(pad[1..], s);
    } else {
      assert pad + s == s;
    }
  }

  lemma {:induction false} TrimRightOfPadding(s: string, pad: string)
    requires AllSpace(pad)
    requires s == [] || !IsSpace(s[|s| - 1])
    ensures TrimRight(s + pad) == s
    decreases |pad|
  {
    if pad != [] {
      assert (s + pad)[..|s + pad| - 1] == s + pad[..|pad| - 1];
      TrimRightOfPadding(s, pad[..|pad| - 1]);
    } else {
      assert s + pad == s;
    }
  }

  lemma {:induction false} TrimSpaceToPadded(s: string, w: string)
    requires TrimSpace(s) == w
    ensures Padded(s, w)
  {
    TrimLeftShape(s);
    TrimRightShape(TrimLeft(s));
    var l := TrimLeft(s);
    var i := |s| - |l|;
    var j := i + |w|;
    assert w == l[..|w|];
    assert s[i..j] == w;
    assert s[j..] == l[|w|..];
  }

  lemma {:induction false} PaddedToTrimSpace(s: string, w: string)
    requires Word(w) && Padded(s, w)
    ensures TrimSpace(s) == w
  {
    var a, b :| 0 <= a <= b <= |s| && AllSpace(s[..a]) && s[a..b] == w && AllSpace(s[b..]);
    assert s == s[..a] + (w + s[b..]);
    TrimLeftOfPadding(s[..a], w + s[b..]);
    TrimRightOfPadding(w, s[b..]);
  }

  /**
   * `TrimSpace(s) == w` holds exactly when `s` is `w` padded with white
   * space, for any word `w`: this is what every sentinel comparison means.
   */
  lemma {:induction false} TrimSpaceEqualsIff(s: string, w: string)
    requires Word(w)
    ensures TrimSpace(s) == w <==> Padded(s, w)
  {
    if TrimSpace(s) == w { TrimSpaceToPadded(s, w); }
    if Padded(s, w) { PaddedToTrimSpace(s, w); }
  }

  /**
   * Go's `strings.ReplaceAll(s, string(c), rep)` for a one-character pattern:
   * every occurrence of `c` is replaced, every other character is kept.
   */
  function ReplaceAll(s: string, c: char, rep: string): string {
    if s == [] then []
    else ReplaceAll(s[..|s| - 1], c, rep) + (if s[|s| - 1] == c then rep else [s[|s| - 1]])
  }

  /** ReplaceAll works character by character, so it distributes over concatenation. */
  lemma {:induction false} ReplaceAllAppend(x: string, y: string, c: char, rep: string)
    ensures ReplaceAll(x + y, c, rep) == ReplaceAll(x, c, rep) + ReplaceAll(y, c, rep)
    decreases |y|
  {
    if y == [] {
      assert x + y == x;
    } else {
      var y', d := y[..|y| - 1], y[|y| - 1];
      var block := if d == c then rep else [d];
      assert (x + y)[..|x + y| - 1] == x + y' && (x + y)[|x + y| - 1] == d;
      assert ReplaceAll(x + y, c, rep) == ReplaceAll(x + y', c, rep) + block;
      assert ReplaceAll(y, c, rep) == ReplaceAll(y', c, rep) + block;
      ReplaceAllAppend(x, y', c, rep);
      assert ReplaceAll(x, c, rep) + ReplaceAll(y', c, rep) + block
          == ReplaceAll(x, c, rep) + (ReplaceAll(y', c, rep) + block);
    }
  }
}
