/**
 * The window commands of the Arc controller: `window create --focus`
 * (windowCreateWithFocus), the dispatch of `window create`, and
 * `window close`. Each command is a method on the Host, specified by a
 * function that gives the scripts it hands to the host and what it returns;
 * the lemmas state what those functions promise.
 */
module WindowCommands {
  import opened Wrappers
  import opened GoStrings
  import opened SearchEscaping
  import opened HostCalls
  import opened ArcPayloads
  import ArcScripts

  // ---------------------------------------------------------------------------
  // windowCreateWithFocus

  const FalseWord: string := "false"
  const NotFoundWord: string := "not_found"

  /**
   * Whether Arc counts as already running, from the answer to the probe: an
   * error counts as running.
   */
  function WasRunning(probe: ExecResult): (running: bool)
    ensures probe.Failed? ==> running
  {
    !(probe.Output? && TrimSpace(probe.out) == FalseWord)
  }

  /**
   * Only a probe that succeeds and prints `false`, white space aside, says
   * that Arc was not running; any error, and any other output, says it was.
   */
  lemma {:induction false} NotRunningOnlyOnFalse(probe: ExecResult)
    ensures !WasRunning(probe) <==> probe.Output? && Padded(probe.out, FalseWord)
  {
    if probe.Output? {
      TrimSpaceEqualsIff(probe.out, FalseWord);
    }
  }

  /** The verdict on the primary payload's output. */
  function Interpret(out: string, search: string): (err: Option<Error>)
    ensures err.Some? ==> err.value == NoTabFound(search)
  {
    if TrimSpace(out) == NotFoundWord then Some(NoTabFound(search)) else None
  }

  /**
   * The primary output is a failure exactly when it is `not_found`, white
   * space aside, and the error names the original, unescaped search; any
   * other output is success.
   */
  lemma {:induction false} NotFoundOnlyOnSentinel(out: string, search: string)
    ensures Interpret(out, search) == Some(NoTabFound(search)) <==> Padded(out, NotFoundWord)
    ensures Interpret(out, search) == None <==> !Padded(out, NotFoundWord)
  {
    TrimSpaceEqualsIff(out, NotFoundWord);
  }

  /**
   * windowCreateWithFocus, given the host's answers to the probe, the
   * primary payload and the clean-up payload.
   */
  function FocusRun(incognito: bool, search: string, probe: ExecResult, primary: ExecResult, cleanup: ExecResult): (r: Run)
    // the probe first, then the primary payload, built from the escaped search
    // and after them the clean-up, if and only if the primary payload
    // succeeded and the probe said Arc was not running
    ensures r.trace == [IsRunning, PrimaryScript(incognito, search)]
                       + (if primary.Output? && !WasRunning(probe) then [CloseExtraWindows] else [])
    // an error of the primary payload, then one of the clean-up, is returned as it is
    ensures primary.Failed? ==> r.err == Some(Transport(primary.error))
    ensures primary.Output? && !WasRunning(probe) && cleanup.Failed? ==> r.err == Some(Transport(cleanup.error))
    // otherwise the result is the verdict on the primary output, whether or not the clean-up ran
    ensures primary.Output? && (WasRunning(probe) || cleanup.Output?) ==> r.err == Interpret(primary.out, search)
  {
    var issued := [IsRunning, PrimaryScript(incognito, search)];
    match primary
    case Failed(e) => Run(issued, Some(Transport(e)))
    case Output(out) =>
      if !WasRunning(probe) then
        match cleanup
        case Failed(e) => Run(issued + [CloseExtraWindows], Some(Transport(e)))
        case Output(_) => Run(issued + [CloseExtraWindows], Interpret(out, search))
      else Run(issued, Interpret(out, search))
  }

  /**
   * The command fails with the not-found error, naming the search as the
   * user gave it, exactly when the primary payload printed `not_found` and
   * neither payload failed; it succeeds on any other output, including
   * text the payload never prints.
   */
  lemma {:induction false} FocusVerdict(incognito: bool, search: string, probe: ExecResult, primary: ExecResult, cleanup: ExecResult)
    ensures var r := FocusRun(incognito, search, probe, primary, cleanup);
            (r.err == Some(NoTabFound(search)) <==>
               primary.Output? && Padded(primary.out, NotFoundWord) && (WasRunning(probe) || cleanup.Output?))
            && (r.err == None <==>
               primary.Output? && !Padded(primary.out, NotFoundWord) && (WasRunning(probe) || cleanup.Output?))
  {
    if primary.Output? {
      NotFoundOnlyOnSentinel(primary.out, search);
    }
  }

  /** windowCreateWithFocus(incognito, search). */
  method CreateWithFocus(host: Host, incognito: bool, search: string) returns (err: Option<Error>)
    modifies host
    ensures var n := |old(host.trace)|;
            var r := FocusRun(incognito, search, host.answer(n), host.answer(n + 1), host.answer(n + 2));
            host.trace == old(host.trace) + r.trace && err == r.err
  {
    ghost var n := |host.trace|;
    ghost var run := FocusRun(incognito, search, host.answer(n), host.answer(n + 1), host.answer(n + 2));

    var wasRunning := true;
    var probe := host.Run(IsRunning);
    if probe.Output? && TrimSpace(probe.out) == FalseWord {
      wasRunning := false;
    }

    var makeWindow := PlainWindowClause;
    if incognito {
      makeWindow := IncognitoWindowClause;
    }

    var escaped := ReplaceAll(search, Backslash, [Backslash, Backslash]);
    escaped := ReplaceAll(escaped, DoubleQuote, [Backslash, DoubleQuote]);
    assert CreateAndSearch(makeWindow, escaped) == PrimaryScript(incognito, search);
    assert wasRunning == WasRunning(probe);

    var output := host.Run(CreateAndSearch(makeWindow, escaped));
    ghost var issued := [IsRunning, PrimaryScript(incognito, search)];
    assert host.trace == old(host.trace) + issued;
    if output.Failed? {
      assert run == Run(issued, Some(Transport(output.error)));
      return Some(Transport(output.error));
    }

    if !wasRunning {
      var r := host.Run(CloseExtraWindows);
      issued := issued + [CloseExtraWindows];
      if r.Failed? {
        assert run == Run(issued, Some(Transport(r.error)));
        return Some(Transport(r.error));
      }
    }
    assert run == Run(issued, Interpret(output.out, search));

    if TrimSpace(output.out) == NotFoundWord {
      return Some(NoTabFound(search));
    }
    return None;
  }

  /**
   * End to end: when the host runs the primary payload as the search loop
   * says, the command fails with the not-found error exactly when the loop
   * exhausted its attempts, unless the clean-up failed first.
   */
  lemma {:induction false} FocusOutcomeFollowsSearch(incognito: bool, search: string, probe: ExecResult,
                                  tabsAt: nat -> seq<ArcScripts.Tab>, cleanup: ExecResult)
    requires WasRunning(probe) || cleanup.Output?
    ensures var o := ArcScripts.Search(tabsAt, search);
            var r := FocusRun(incognito, search, probe, Output(ArcScripts.Sentinel(o)), cleanup);
            (r.err == Some(NoTabFound(search)) <==> o.NotFound?) && (r.err == None <==> o.Found?)
  {
    var o := ArcScripts.Search(tabsAt, search);
    var out := ArcScripts.Sentinel(o);
    if o.Found? {
      assert TrimSpace(out) == "found";
    } else {
      assert TrimSpace(out) == NotFoundWord;
    }
  }

  // ---------------------------------------------------------------------------
  // window create

  /** The scripts of the plain `window create [url]`, in order. */
  function PlainScripts(incognito: bool, args: seq<string>): seq<Script> {
    [MakeWindow(incognito)] + (if |args| > 0 then [NewTab(args[0])] else []) + [Activate]
  }

  /** The RunE of `window create`; cobra lets through at most one argument. */
  function CreateRun(incognito: bool, focus: string, args: seq<string>, answer: nat -> ExecResult, n: nat): Run
    requires |args| <= 1
  {
    if focus != "" then FocusRun(incognito, focus, answer(n), answer(n + 1), answer(n + 2))
    else FailFast(PlainScripts(incognito, args), answer, n)
  }

  /**
   * Without `--focus` there is no probe and no search: the window is made
   * first, then the tab with the URL if one was given, then Arc is
   * activated, and the command stops at the first script the host fails.
   */
  lemma {:induction false} PlainCreate(incognito: bool, args: seq<string>, answer: nat -> ExecResult, n: nat)
    requires |args| <= 1
    ensures var r := CreateRun(incognito, "", args, answer, n);
            r.trace != [] && r.trace[0] == MakeWindow(incognito) && IsRunning !in r.trace
            && (|args| == 1 && answer(n).Output? ==> |r.trace| >= 2 && r.trace[1] == NewTab(args[0]))
            && (r.err == None <==> r.trace == PlainScripts(incognito, args)
                                   && forall i :: n <= i < n + |r.trace| ==> answer(i).Output?)
  {
    var scripts := PlainScripts(incognito, args);
    FailFastStops(scripts, answer, n);
    FailFastCons(scripts[0], scripts[1..], answer, n);
    assert [scripts[0]] + scripts[1..] == scripts;
    var r := CreateRun(incognito, "", args, answer, n);
    assert forall k :: 0 <= k < |r.trace| ==> r.trace[k] == scripts[k];
  }

  /** With `--focus`, the URL argument is ignored. */
  lemma {:induction false} FocusIgnoresUrl(incognito: bool, focus: string, args1: seq<string>, args2: seq<string>,
                        answer: nat -> ExecResult, n: nat)
    requires focus != "" && |args1| <= 1 && |args2| <= 1
    ensures CreateRun(incognito, focus, args1, answer, n) == CreateRun(incognito, focus, args2, answer, n)
  {
  }

  /** `window create [url]` without `--focus`. */
  method CreatePlain(host: Host, incognito: bool, args: seq<string>) returns (err: Option<Error>)
    requires |args| <= 1
    modifies host
    ensures var r := FailFast(PlainScripts(incognito, args), host.answer, |old(host.trace)|);
            host.trace == old(host.trace) + r.trace && err == r.err
  {
    ghost var n := |host.trace|;
    ghost var tail := if |args| > 0 then [NewTab(args[0]), Activate] else [Activate];
    assert PlainScripts(incognito, args) == [MakeWindow(incognito)] + tail;
    FailFastCons(MakeWindow(incognito), tail, host.answer, n);

    var r := host.Run(MakeWindow(incognito));
    if r.Failed? {
      return Some(Transport(r.error));
    }

    if |args| > 0 {
      FailFastCons(NewTab(args[0]), [Activate], host.answer, n + 1);
      r := host.Run(NewTab(args[0]));
      if r.Failed? {
        return Some(Transport(r.error));
      }
    }

    ghost var m := |host.trace|;
    FailFastCons(Activate, [], host.answer, m);
    r := host.Run(Activate);
    if r.Failed? {
      return Some(Transport(r.error));
    }
    return None;
  }

  method Create(host: Host, incognito: bool, focus: string, args: seq<string>) returns (err: Option<Error>)
    requires |args| <= 1
    modifies host
    ensures var r := CreateRun(incognito, focus, args, host.answer, |old(host.trace)|);
            host.trace == old(host.trace) + r.trace && err == r.err
  {
    if focus != "" {
      err := CreateWithFocus(host, incognito, focus);
    } else {
      err := CreatePlain(host, incognito, args);
    }
  }

  // ---------------------------------------------------------------------------
  // window close

  /**
   * The loop over the ids from position `i` on: each one is parsed by
   * `atoi` (strconv.Atoi) and closed in turn, until the first id that does
   * not parse or the first close the host fails. The close of `ids[k]` is
   * host call `n + k`.
   */
  function CloseFrom(ids: seq<string>, i: nat, atoi: string -> Option<int>, answer: nat -> ExecResult, n: nat): Run
    requires i <= |ids|
    decreases |ids| - i
  {
    if i == |ids| then Run([], None)
    else match atoi(ids[i])
      case None => Run([], Some(BadWindowId(ids[i])))
      case Some(id) =>
        match answer(n + i)
        case Failed(e) => Run([CloseWindow(id)], Some(Transport(e)))
        case Output(_) =>
          var rest := CloseFrom(ids, i + 1, atoi, answer, n);
          Run([CloseWindow(id)] + rest.trace, rest.err)
  }

  /**
   * The ids are closed in order, one script each, and the loop stops at the
   * first id that does not parse (reporting that id, with no script for it)
   * or at the first close the host fails (reporting the host's error); it
   * succeeds exactly when every id parsed and every close went through.
   */
  lemma {:induction false} CloseFailFast(ids: seq<string>, i: nat, atoi: string -> Option<int>,
                                         answer: nat -> ExecResult, n: nat)
    requires i <= |ids|
    ensures var r := CloseFrom(ids, i, atoi, answer, n);
            i + |r.trace| <= |ids|
            && (forall j :: i <= j < i + |r.trace| ==> atoi(ids[j]).Some? && r.trace[j - i] == CloseWindow(atoi(ids[j]).value))
            && (forall c :: n + i <= c < n + i + |r.trace| - 1 ==> answer(c).Output?)
            && (r.err == None <==> i + |r.trace| == |ids| && forall c :: n + i <= c < n + |ids| ==> answer(c).Output?)
            && (r.err.Some? && r.err.value.BadWindowId? ==>
                  i + |r.trace| < |ids| && r.err.value.arg == ids[i + |r.trace|] && atoi(ids[i + |r.trace|]).None?
                  && (r.trace != [] ==> answer(n + i + |r.trace| - 1).Output?))
            && (r.err.Some? && !r.err.value.BadWindowId? ==>
                  r.trace != [] && answer(n + i + |r.trace| - 1).Failed?
                  && r.err == Some(Transport(answer(n + i + |r.trace| - 1).error)))
    decreases |ids| - i
  {
    if i < |ids| && atoi(ids[i]).Some? && answer(n + i).Output? {
      CloseFailFast(ids, i + 1, atoi, answer, n);
      var rest := CloseFrom(ids, i + 1, atoi, answer, n);
      var r := CloseFrom(ids, i, atoi, answer, n);
      assert r.trace == [CloseWindow(atoi(ids[i]).value)] + rest.trace && r.err == rest.err;
      assert n + (i + 1) + |rest.trace| - 1 == n + i + |r.trace| - 1;
      forall j | i <= j < i + |r.trace|
        ensures atoi(ids[j]).Some? && r.trace[j - i] == CloseWindow(atoi(ids[j]).value)
      {
        if j > i {
          assert r.trace[j - i] == rest.trace[j - (i + 1)];
        }
      }
    }
  }

  /** The RunE of `window close`: no argument closes the front window. */
  function CloseRun(args: seq<string>, atoi: string -> Option<int>, answer: nat -> ExecResult, n: nat): Run {
    if args == [] then FailFast([CloseFront], answer, n) else CloseFrom(args, 0, atoi, answer, n)
  }

  /** With no argument, exactly one script closes the front window, and only its failure is reported. */
  lemma {:induction false} CloseFrontOnly(atoi: string -> Option<int>, answer: nat -> ExecResult, n: nat)
    ensures var r := CloseRun([], atoi, answer, n);
            r.trace == [CloseFront] && (r.err == None <==> answer(n).Output?)
            && (answer(n).Failed? ==> r.err == Some(Transport(answer(n).error)))
  {
    FailFastCons(CloseFront, [], answer, n);
    assert [CloseFront] + [] == [CloseFront];
  }

  /** The scripts `done` followed by the run `r`. */
  function After(done: seq<Script>, r: Run): Run {
    Run(done + r.trace, r.err)
  }

  /** A close that goes through moves one id from the loop's remainder to its done part. */
  lemma {:induction false} CloseLoopStep(args: seq<string>, atoi: string -> Option<int>, answer: nat -> ExecResult, n: nat,
                      i: nat, done: seq<Script>)
    requires i < |args| && atoi(args[i]).Some? && answer(n + i).Output?
    ensures After(done, CloseFrom(args, i, atoi, answer, n))
            == After(done + [CloseWindow(atoi(args[i]).value)], CloseFrom(args, i + 1, atoi, answer, n))
  {
    var next := CloseFrom(args, i + 1, atoi, answer, n);
    assert done + ([CloseWindow(atoi(args[i]).value)] + next.trace) == (done + [CloseWindow(atoi(args[i]).value)]) + next.trace;
  }

  /** The loop of `window close <id>...` over the ids, in order. */
  method CloseEach(host: Host, ids: seq<string>, atoi: string -> Option<int>) returns (err: Option<Error>)
    modifies host
    ensures var r := CloseFrom(ids, 0, atoi, host.answer, |old(host.trace)|);
            host.trace == old(host.trace) + r.trace && err == r.err
  {
    ghost var n := |host.trace|;
    ghost var answer := host.answer;
    ghost var total := CloseFrom(ids, 0, atoi, answer, n);
    ghost var done: seq<Script> := [];
    var i := 0;
    while i < |ids|
      invariant 0 <= i <= |ids|
      invariant host.trace == old(host.trace) + done && |done| == i
      invariant total == After(done, CloseFrom(ids, i, atoi, answer, n))
    {
      var id := ids[i];
      var windowId := atoi(id);
      if windowId.None? {
        assert total == Run(done, Some(BadWindowId(id)));
        return Some(BadWindowId(id));
      }
      var r := host.Run(CloseWindow(windowId.value));
      if r.Failed? {
        assert total == Run(done + [CloseWindow(windowId.value)], Some(Transport(r.error)));
        return Some(Transport(r.error));
      }
      CloseLoopStep(ids, atoi, answer, n, i, done);
      done := done + [CloseWindow(windowId.value)];
      i := i + 1;
    }
    return None;
  }

  method Close(host: Host, args: seq<string>, atoi: string -> Option<int>) returns (err: Option<Error>)
    modifies host
    ensures var r := CloseRun(args, atoi, host.answer, |old(host.trace)|);
            host.trace == old(host.trace) + r.trace && err == r.err
  {
    if |args| == 0 {
      FailFastCons(CloseFront, [], host.answer, |host.trace|);
      var r := host.Run(CloseFront);
      if r.Failed? {
        return Some(Transport(r.error));
      }
      return None;
    }
    err := CloseEach(host, args, atoi);
  }
}
