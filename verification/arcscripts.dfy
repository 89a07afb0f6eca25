/**
 * What the two AppleScript programs that windowCreateWithFocus sends to Arc
 * do once Arc runs them: the bounded title search (the primary payload) and
 * the clean-up that closes every window but the first. The host's state is
 * given as values: the tabs of the front window as each attempt sees them,
 * and the list of open windows. Delays are counted in half-seconds.
 */
module ArcScripts {
  import opened Wrappers

  // ---------------------------------------------------------------------------
  // `ignoring case ... tabTitle contains "<search>"`

  /** Case is ignored by mapping the ASCII capitals onto the small letters. */
  function Lower(c: char): char {
    if 'A' <= c <= 'Z' then (c as int + 32) as char else c
  }

  /**
   * Two characters compare equal case aside exactly when they are the same,
   * or one is a capital and the other its small letter.
   */
  lemma {:induction false} LowerAgree(c: char, d: char)
    ensures Lower(c) == Lower(d) <==>
              c == d || ('A' <= c <= 'Z' && d as int == c as int + 32) || ('A' <= d <= 'Z' && c as int == d as int + 32)
  {
  }

  function LowerAll(s: string): string {
    seq(|s|, k requires 0 <= k < |s| => Lower(s[k]))
  }

  /** `needle` occurs in `hay` starting at position `i`. */
  predicate OccursAt(hay: string, needle: string, i: int) {
    0 <= i <= |hay| - |needle| && hay[i..i + |needle|] == needle
  }

  /** AppleScript's `contains` on two texts: `needle` occurs somewhere in `hay`. */
  function Contains(hay: string, needle: string): (r: bool)
    ensures r <==> exists i :: OccursAt(hay, needle, i)
    decreases |hay|
  {
    if OccursAt(hay, needle, 0) then true
    else if hay == [] then false
    else
      ContainsShift(hay, needle);
      Contains(hay[1..], needle)
  }

  /** Past the first position, `hay` contains `needle` exactly when its tail does. */
  lemma {:induction false} ContainsShift(hay: string, needle: string)
    requires hay != [] && !OccursAt(hay, needle, 0)
    ensures (exists i :: OccursAt(hay, needle, i)) <==> (exists i :: OccursAt(hay[1..], needle, i))
  {
    if exists i :: OccursAt(hay, needle, i) {
      var i :| OccursAt(hay, needle, i);
      assert hay[1..][i - 1..i - 1 + |needle|] == hay[i..i + |needle|];
      assert OccursAt(hay[1..], needle, i - 1);
    }
    if exists i :: OccursAt(hay[1..], needle, i) {
      var i :| OccursAt(hay[1..], needle, i);
      assert hay[1..][i..i + |needle|] == hay[i + 1..i + 1 + |needle|];
      assert OccursAt(hay, needle, i + 1);
    }
  }

  /** The test inside `ignoring case`: the title contains the search, case aside. */
  predicate Matches(title: string, search: string) {
    Contains(LowerAll(title), LowerAll(search))
  }

  /** `search` occurs in `title` at position `i` when each pair of characters is compared case aside. */
  predicate CaseBlindAt(title: string, search: string, i: int) {
    0 <= i <= |title| - |search| && forall k :: 0 <= k < |search| ==> Lower(title[i + k]) == Lower(search[k])
  }

  lemma {:induction false} AtIff(title: string, search: string, i: int)
    ensures OccursAt(LowerAll(title), LowerAll(search), i) <==> CaseBlindAt(title, search, i)
  {
    var t, s := LowerAll(title), LowerAll(search);
    if 0 <= i <= |t| - |s| {
      if OccursAt(t, s, i) {
        forall k | 0 <= k < |search|
          ensures Lower(title[i + k]) == Lower(search[k])
        {
          assert t[i..i + |s|][k] == t[i + k];
        }
      }
      if CaseBlindAt(title, search, i) {
        assert t[i..i + |s|] == s;
      }
    }
  }

  /**
   * The title matches exactly when the search occurs somewhere in it, each
   * character compared with its counterpart case aside.
   */
  lemma {:induction false} MatchesCharwise(title: string, search: string)
    ensures Matches(title, search) <==> exists i :: CaseBlindAt(title, search, i)
  {
    forall i
      ensures OccursAt(LowerAll(title), LowerAll(search), i) <==> CaseBlindAt(title, search, i)
    {
      AtIff(title, search, i);
    }
  }

  // ---------------------------------------------------------------------------
  // The search loop of the primary payload

  /**
   * A tab as one attempt sees it: its title, or None when reading the title
   * raised an error, and whether `tell tab tabIndex to select` and `activate`
   * went through (both sit inside the same `try`, so an error there is
   * swallowed too and the scan moves on to the next tab).
   */
  datatype Tab = Tab(title: Option<string>, focusOk: bool)

  /** The tab ends the script with "found". */
  predicate Hit(tab: Tab, search: string) {
    tab.title.Some? && Matches(tab.title.value, search) && tab.focusOk
  }

  /** The 0-based position of the first tab at or after `k`, in order, that ends the scan. */
  function FirstHitFrom(tabs: seq<Tab>, k: nat, search: string): Option<nat>
    requires k <= |tabs|
    decreases |tabs| - k
  {
    if k == |tabs| then None
    else if Hit(tabs[k], search) then Some(k)
    else FirstHitFrom(tabs, k + 1, search)
  }

  function FirstHit(tabs: seq<Tab>, search: string): Option<nat> {
    FirstHitFrom(tabs, 0, search)
  }

  /** The scan stops at the first hit, and at none when no tab is a hit. */
  lemma {:induction false} FirstHitFromIsFirst(tabs: seq<Tab>, k: nat, search: string)
    requires k <= |tabs|
    ensures var r := FirstHitFrom(tabs, k, search);
            (r.Some? ==> k <= r.value < |tabs| && Hit(tabs[r.value], search)
                         && forall j :: k <= j < r.value ==> !Hit(tabs[j], search))
            && (r.None? ==> forall j :: k <= j < |tabs| ==> !Hit(tabs[j], search))
    decreases |tabs| - k
  {
    if k < |tabs| && !Hit(tabs[k], search) {
      FirstHitFromIsFirst(tabs, k + 1, search);
    }
  }

  /** FirstHit finds the first tab that is a hit, and finds nothing exactly when no tab is one. */
  lemma {:induction false} FirstHitIsFirst(tabs: seq<Tab>, search: string)
    ensures var r := FirstHit(tabs, search);
            (r.Some? ==> r.value < |tabs| && Hit(tabs[r.value], search)
                         && forall j :: 0 <= j < r.value ==> !Hit(tabs[j], search))
            && (r.None? <==> forall j :: 0 <= j < |tabs| ==> !Hit(tabs[j], search))
  {
    FirstHitFromIsFirst(tabs, 0, search);
  }

  const MaxRetries: nat := 10
  /** `delay 1` after creating the window, in half-seconds. */
  const SettleDelay: nat := 2
  /** `delay 0.5` between two attempts, in half-seconds. */
  const RetryDelay: nat := 1

  /**
   * How the script ends: with "found" after selecting tab `tabIndex`
   * (1-based, as AppleScript counts) on attempt `attempt`, or with
   * "not_found"; `waited` is the time spent in `delay`.
   */
  datatype SearchOutcome = Found(attempt: nat, tabIndex: nat, waited: nat) | NotFound(waited: nat)

  /** The text the script returns to the caller. */
  function Sentinel(o: SearchOutcome): (s: string)
    ensures s == "found" <==> o.Found?
    ensures s == "not_found" <==> o.NotFound?
  {
    if o.Found? then "found" else "not_found"
  }

  /** Attempts `attempt` to MaxRetries, having waited `waited` so far. */
  function SearchFrom(tabsAt: nat -> seq<Tab>, search: string, attempt: nat, waited: nat): SearchOutcome
    requires 1 <= attempt <= MaxRetries
    decreases MaxRetries - attempt
  {
    match FirstHit(tabsAt(attempt), search)
    case Some(k) => Found(attempt, k + 1, waited)
    case None =>
      if attempt < MaxRetries then SearchFrom(tabsAt, search, attempt + 1, waited + RetryDelay)
      else NotFound(waited)
  }

  lemma {:induction false} SearchFromSpec(tabsAt: nat -> seq<Tab>, search: string, attempt: nat, waited: nat)
    requires 1 <= attempt <= MaxRetries
    ensures var o := SearchFrom(tabsAt, search, attempt, waited);
            (o.Found? ==> attempt <= o.attempt <= MaxRetries
                          && FirstHit(tabsAt(o.attempt), search) == Some(o.tabIndex - 1) && o.tabIndex >= 1
                          && (forall a :: attempt <= a < o.attempt ==> FirstHit(tabsAt(a), search).None?)
                          && o.waited == waited + (o.attempt - attempt) * RetryDelay)
            && (o.NotFound? ==> (forall a :: attempt <= a <= MaxRetries ==> FirstHit(tabsAt(a), search).None?)
                                && o.waited == waited + (MaxRetries - attempt) * RetryDelay)
    decreases MaxRetries - attempt
  {
    if FirstHit(tabsAt(attempt), search).None? && attempt < MaxRetries {
      SearchFromSpec(tabsAt, search, attempt + 1, waited + RetryDelay);
    }
  }

  /**
   * The whole primary payload after the window is made: it settles, then
   * scans up to MaxRetries times.
   */
  function Search(tabsAt: nat -> seq<Tab>, search: string): SearchOutcome {
    SearchFrom(tabsAt, search, 1, SettleDelay)
  }

  /**
   * The search finds the first hit of the first attempt that has one; it
   * waits 1 second plus half a second between attempts, never after the
   * last one, so never more than 5.5 seconds, and exactly that long when
   * nothing is found.
   */
  lemma {:induction false} SearchFindsFirstHit(tabsAt: nat -> seq<Tab>, search: string)
    ensures var o := Search(tabsAt, search);
            (o.Found? ==> 1 <= o.attempt <= MaxRetries && 1 <= o.tabIndex <= |tabsAt(o.attempt)|
                          && Hit(tabsAt(o.attempt)[o.tabIndex - 1], search)
                          && (forall k :: 0 <= k < o.tabIndex - 1 ==> !Hit(tabsAt(o.attempt)[k], search))
                          && (forall a, k :: 1 <= a < o.attempt && 0 <= k < |tabsAt(a)| ==> !Hit(tabsAt(a)[k], search))
                          && o.waited == SettleDelay + (o.attempt - 1) * RetryDelay)
            && (o.NotFound? ==> (forall a, k :: 1 <= a <= MaxRetries && 0 <= k < |tabsAt(a)| ==> !Hit(tabsAt(a)[k], search))
                                && o.waited == 11)
            && o.waited <= 11
  {
    var o := Search(tabsAt, search);
    SearchFromSpec(tabsAt, search, 1, SettleDelay);
    if o.Found? {
      FirstHitIsFirst(tabsAt(o.attempt), search);
      forall a | 1 <= a < o.attempt
        ensures forall k :: 0 <= k < |tabsAt(a)| ==> !Hit(tabsAt(a)[k], search)
      {
        FirstHitIsFirst(tabsAt(a), search);
      }
    } else {
      forall a | 1 <= a <= MaxRetries
        ensures forall k :: 0 <= k < |tabsAt(a)| ==> !Hit(tabsAt(a)[k], search)
      {
        FirstHitIsFirst(tabsAt(a), search);
      }
    }
  }

  /**
   * The search loop as the script runs it: `repeat with attempt`, and
   * inside it `repeat with aTab in every tab` counting `tabIndex`.
   */
  method RunSearch(tabsAt: nat -> seq<Tab>, search: string) returns (o: SearchOutcome)
    ensures o == Search(tabsAt, search)
  {
    var waited: nat := SettleDelay;
    var attempt: nat := 1;
    while attempt <= MaxRetries
      invariant 1 <= attempt <= MaxRetries + 1
      invariant attempt <= MaxRetries ==> Search(tabsAt, search) == SearchFrom(tabsAt, search, attempt, waited)
      invariant attempt > MaxRetries ==> Search(tabsAt, search) == NotFound(waited)
      decreases MaxRetries + 1 - attempt
    {
      var tabs := tabsAt(attempt);
      var tabIndex := 1;
      while tabIndex <= |tabs|
        invariant 1 <= tabIndex <= |tabs| + 1
        invariant FirstHit(tabs, search) == FirstHitFrom(tabs, tabIndex - 1, search)
      {
        var tab := tabs[tabIndex - 1];
        if tab.title.Some? && Matches(tab.title.value, search) && tab.focusOk {
          return Found(attempt, tabIndex, waited);
        }
        tabIndex := tabIndex + 1;
      }
      if attempt < MaxRetries {
        waited := waited + RetryDelay;
      }
      attempt := attempt + 1;
    }
    return NotFound(waited);
  }

  // ---------------------------------------------------------------------------
  // The clean-up payload

  /**
   * `repeat with i from windowCount to 2 by -1: close window i`, on the
   * list of open windows (AppleScript numbers them from 1). Closing from the
   * last index down means every `close window i` names a window that still
   * exists; the first window is the one left open, and the others are
   * closed from the last to the second.
   */
  method CloseAllButFirst(windows: seq<int>) returns (remaining: seq<int>, closed: seq<int>)
    ensures remaining == if windows == [] then [] else [windows[0]]
    ensures |closed| == |windows| - |remaining|
    ensures forall k :: 0 <= k < |closed| ==> closed[k] == windows[|windows| - 1 - k]
  {
    remaining, closed := windows, [];
    var i := |windows|;
    while i >= 2
      invariant 0 <= i <= |windows|
      invariant i < |windows| ==> i >= 1
      invariant remaining == windows[..i]
      invariant |closed| == |windows| - i
      invariant forall k :: 0 <= k < |closed| ==> closed[k] == windows[|windows| - 1 - k]
    {
      closed := closed + [remaining[i - 1]];
      remaining := remaining[..i - 1] + remaining[i..];
      i := i - 1;
    }
  }
}
