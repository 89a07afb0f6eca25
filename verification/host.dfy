/**
 * The single collaborator every window command goes through:
 * `runApplescript`, which hands one AppleScript program to the automation
 * host and blocks until it answers with the program's output or an error.
 * Its implementation is not part of this model; a Host records every script
 * it is given, in order (as the template and the values filled into it: the
 * text is `Text(script)`), and answers the k-th call with `answer(k)`.
 */
module HostCalls {
  import opened Wrappers
  import opened ArcPayloads

  /** The error `runApplescript` reports (host unreachable, runtime fault in the script). */
  datatype HostError = HostError(message: string)

  /** What one call of `runApplescript` returns: the script's output, or an error. */
  datatype ExecResult = Output(out: string) | Failed(error: HostError)

  /** The errors a window command returns to its caller. */
  datatype Error =
    | Transport(cause: HostError)   // an error from runApplescript, returned as it is
    | NoTabFound(search: string)    // "no tab found with title containing %q", of the unescaped search
    | BadWindowId(arg: string)      // strconv.Atoi refused an argument of the close command

  /** The scripts a command hands to the host, in order, and what the command returns. */
  datatype Run = Run(trace: seq<Script>, err: Option<Error>)

  /**
   * Runs `scripts` one after the other, starting at host call number `n`,
   * and stops at the first one the host fails: the `if _, err :=
   * runApplescript(...); err != nil { return err }` sequence.
   */
  function FailFast(scripts: seq<Script>, answer: nat -> ExecResult, n: nat): Run
    decreases |scripts|
  {
    if scripts == [] then Run([], None)
    else match answer(n)
      case Failed(e) => Run([scripts[0]], Some(Transport(e)))
      case Output(_) =>
        var rest := FailFast(scripts[1..], answer, n + 1);
        Run([scripts[0]] + rest.trace, rest.err)
  }

  /**
   * The scripts issued are a prefix of `scripts`, every one but the last
   * succeeded, and the run fails exactly when the last one issued failed,
   * with that failure; it succeeds exactly when all were issued and all
   * succeeded.
   */
  lemma {:induction false} FailFastStops(scripts: seq<Script>, answer: nat -> ExecResult, n: nat)
    ensures var r := FailFast(scripts, answer, n);
            |r.trace| <= |scripts| && r.trace == scripts[..|r.trace|]
            && (forall i :: n <= i < n + |r.trace| - 1 ==> answer(i).Output?)
            && (r.err == None <==> r.trace == scripts && forall i :: n <= i < n + |scripts| ==> answer(i).Output?)
            && (r.err.Some? ==> r.trace != [] && answer(n + |r.trace| - 1).Failed?
                                && r.err == Some(Transport(answer(n + |r.trace| - 1).error)))
    decreases |scripts|
  {
    if scripts != [] && answer(n).Output? {
      FailFastStops(scripts[1..], answer, n + 1);
      var rest := FailFast(scripts[1..], answer, n + 1);
      assert [scripts[0]] + rest.trace == scripts[..1 + |rest.trace|];
    }
  }

  /** One step of FailFast: the first script is issued, and the rest only if it succeeded. */
  lemma {:induction false} FailFastCons(s: Script, rest: seq<Script>, answer: nat -> ExecResult, n: nat)
    ensures answer(n).Failed? ==> FailFast([s] + rest, answer, n) == Run([s], Some(Transport(answer(n).error)))
    ensures answer(n).Output? ==>
              FailFast([s] + rest, answer, n)
              == Run([s] + FailFast(rest, answer, n + 1).trace, FailFast(rest, answer, n + 1).err)
  {
    assert ([s] + rest)[0] == s && ([s] + rest)[1..] == rest;
  }

  /** The automation host as the commands see it. */
  class Host {
    /** Every script handed to the host so far, in order. */
    var trace: seq<Script>
    /** The host's answer to its k-th call, counting from 0. */
    const answer: nat -> ExecResult

    constructor (answer: nat -> ExecResult)
      ensures trace == [] && this.answer == answer
    {
      this.answer := answer;
      trace := [];
    }

    /** `runApplescript(script)`. */
    method Run(script: Script) returns (r: ExecResult)
      modifies this
      ensures trace == old(trace) + [script]
      ensures r == answer(|old(trace)|)
    {
      r := answer(|trace|);
      trace := trace + [script];
    }
  }
}
