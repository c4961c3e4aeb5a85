/** The outside world as the scripts see it. Every effect they have -- a local
    shell command, an SSH connect/exec/close, an HTTP request, a sleep, a mail --
    is an Event appended to the host's trace, and its Reply is whatever the
    oracle answers for that event given everything issued before it. */
module Effects {

  datatype Option<+T> = None | Some(value: T)

  /** The Python exceptions the scripts raise or let escape. */
  datatype Error =
    | CalledProcessError(cmd: string, returncode: int)  // subprocess.run(..., check=True)
    | SshError(stderr: string)                          // Exception(f"Error: {error}") of ssh_execute_command
    | ConnectError(host: string)                        // paramiko's connect() failing
    | IndexError                                        // list index out of range
    | Failure(message: string)                          // raise Exception(message)

  datatype Outcome<+T> = Ok(value: T) | Raised(error: Error)

  /** What the outside answers: an exit status or HTTP status in `code`, the
      captured streams, and the decoded JSON body of an HTTP response. */
  datatype Reply = Reply(code: int, stdout: string, stderr: string, json: map<string, string>)

  datatype Mail = Mail(sender: string, recipient: string, subject: string, body: string)

  datatype Event =
    | Run(cmd: string)                 // subprocess.run(cmd, shell=True, ...)
    | SshConnect(host: string, user: string)
    | Exec(cmd: string)                // ssh_client.exec_command(cmd)
    | SshClose
    | Post(url: string, headers: map<string, string>, body: Option<map<string, string>>)
    | Get(url: string, headers: map<string, string>, params: map<string, string>)
    | Sleep(seconds: nat)
    | SendMail(mail: Mail)

  type Trace = seq<Event>

  /** The answer to an event, given the events issued before it. */
  type Oracle = (Trace, Event) -> Reply

  /** dict.get(key) */
  function Lookup(m: map<string, string>, key: string): (r: Option<string>)
    ensures r.Some? <==> key in m
    ensures r.Some? ==> r.value == m[key]
  {
    if key in m then Some(m[key]) else None
  }

  /** A dict with `key` set to `value`, where requests drops entries whose value is None. */
  function WithOptional(m: map<string, string>, key: string, value: Option<string>): map<string, string>
  {
    if value.Some? then m[key := value.value] else m
  }

  /** The machine the scripts run on, with the effects they have had so far. */
  class Host {
    const oracle: Oracle
    var trace: Trace

    constructor (oracle: Oracle)
      ensures this.oracle == oracle && trace == []
    {
      this.oracle := oracle;
      trace := [];
    }

    method Perform(e: Event) returns (reply: Reply)
      modifies this
      ensures trace == old(trace) + [e]
      ensures reply == oracle(old(trace), e)
    {
      reply := oracle(trace, e);
      trace := trace + [e];
    }

    /** Two events started together (ThreadPoolExecutor.submit twice): neither
        sees the other's effect. */
    method PerformBoth(e1: Event, e2: Event) returns (reply1: Reply, reply2: Reply)
      modifies this
      ensures trace == old(trace) + [e1, e2]
      ensures reply1 == oracle(old(trace), e1) && reply2 == oracle(old(trace), e2)
    {
      reply1 := oracle(trace, e1);
      reply2 := oracle(trace, e2);
      trace := trace + [e1, e2];
    }
  }

  /** subprocess.run(cmd, shell=True, check=True, capture_output=True, text=True):
      stdout on exit status 0, CalledProcessError otherwise. */
  method Capture(h: Host, cmd: string) returns (r: Outcome<string>)
    modifies h
    ensures h.trace == old(h.trace) + [Run(cmd)]
    ensures var reply := h.oracle(old(h.trace), Run(cmd));
      r == if reply.code != 0 then Raised(CalledProcessError(cmd, reply.code)) else Ok(reply.stdout)
  {
    var reply := h.Perform(Run(cmd));
    if reply.code != 0 {
      r := Raised(CalledProcessError(cmd, reply.code));
    } else {
      r := Ok(reply.stdout);
    }
  }

  /** ssh_execute_command (suse_scan.py and cleanup.py): any stderr text is a
      failure, whatever the exit status; otherwise stdout is returned. */
  method SshExecute(h: Host, cmd: string) returns (r: Outcome<string>)
    modifies h
    ensures h.trace == old(h.trace) + [Exec(cmd)]
    ensures var reply := h.oracle(old(h.trace), Exec(cmd));
      && (r.Raised? <==> reply.stderr != "")
      && (r.Raised? ==> r.error == SshError(reply.stderr))
      && (r.Ok? ==> r.value == reply.stdout)
  {
    var reply := h.Perform(Exec(cmd));
    if reply.stderr != "" {
      r := Raised(SshError(reply.stderr));
    } else {
      r := Ok(reply.stdout);
    }
  }

  /** One step of a command pipeline and the way its failure is recognised. */
  datatype Step =
    | Local(cmd: string)                  // subprocess.run(cmd, shell=True, check=True)
    | Remote(cmd: string)                 // ssh_execute_command(ssh, cmd)
    | Connect(host: string, user: string) // ssh.connect(host, username=user)
    | Disconnect                          // ssh.close()

  function EventOf(s: Step): Event
  {
    match s
    case Local(cmd) => Run(cmd)
    case Remote(cmd) => Exec(cmd)
    case Connect(host, user) => SshConnect(host, user)
    case Disconnect => SshClose
  }

  /** The exception a step raises given the reply to its event, if any. */
  function Check(s: Step, reply: Reply): Outcome<()>
  {
    match s
    case Local(cmd) => if reply.code != 0 then Raised(CalledProcessError(cmd, reply.code)) else Ok(())
    case Remote(_) => if reply.stderr != "" then Raised(SshError(reply.stderr)) else Ok(())
    case Connect(host, _) => if reply.code != 0 then Raised(ConnectError(host)) else Ok(())
    case Disconnect => Ok(())
  }

  method Execute(h: Host, s: Step) returns (r: Outcome<()>)
    modifies h
    ensures h.trace == old(h.trace) + [EventOf(s)]
    ensures r == Check(s, h.oracle(old(h.trace), EventOf(s)))
  {
    var reply := h.Perform(EventOf(s));
    r := Check(s, reply);
  }

  function Events(steps: seq<Step>): (es: Trace)
    ensures |es| == |steps|
    ensures forall i :: 0 <= i < |steps| ==> es[i] == EventOf(steps[i])
  {
    seq(|steps|, i requires 0 <= i < |steps| => EventOf(steps[i]))
  }

  /** The events a pipeline issued and how it ended. */
  datatype Effect = Effect(issued: Trace, outcome: Outcome<()>)

  /** A pipeline of steps run in order from trace t, where the first step that
      fails raises and no later step is attempted. */
  function RunSteps(o: Oracle, t: Trace, steps: seq<Step>): (e: Effect)
    ensures |e.issued| <= |steps|
    ensures e.outcome.Ok? ==> |e.issued| == |steps|
    decreases |steps|
  {
    if steps == [] then Effect([], Ok(()))
    else
      var prior := RunSteps(o, t, steps[..|steps| - 1]);
      if prior.outcome.Raised? then prior
      else
        var last := steps[|steps| - 1];
        Effect(prior.issued + [EventOf(last)], Check(last, o(t + prior.issued, EventOf(last))))
  }

  /** Step i of a pipeline passes when run after steps[..i]. */
  ghost predicate Passes(o: Oracle, t: Trace, steps: seq<Step>, i: nat)
    requires i < |steps|
  {
    Check(steps[i], o(t + Events(steps[..i]), EventOf(steps[i]))).Ok?
  }

  lemma PassesOnPrefix(o: Oracle, t: Trace, steps: seq<Step>, k: nat, i: nat)
    requires i < k <= |steps|
    ensures Passes(o, t, steps[..k], i) == Passes(o, t, steps, i)
  {
    assert steps[..k][..i] == steps[..i];
  }

  /** A pipeline issues a prefix of its steps, in order; all of them when it
      ends normally, at least one when it raises. */
  lemma {:induction false} RunStepsIssuesPrefix(o: Oracle, t: Trace, steps: seq<Step>)
    ensures var e := RunSteps(o, t, steps);
      && |e.issued| <= |steps|
      && e.issued == Events(steps[..|e.issued|])
      && (e.outcome.Ok? ==> |e.issued| == |steps|)
      && (e.outcome.Raised? ==> |e.issued| > 0)
    decreases |steps|
  {
    if steps != [] {
      var init := steps[..|steps| - 1];
      RunStepsIssuesPrefix(o, t, init);
      var n := |RunSteps(o, t, init).issued|;
      assert init[..n] == steps[..n];
    }
  }

  /** What RunStepsLastIssuedDecides states of a pipeline's result. */
  ghost predicate LastIssuedDecides(o: Oracle, t: Trace, steps: seq<Step>, e: Effect)
    requires |e.issued| <= |steps|
  {
    var n := |e.issued|;
    && (forall i :: 0 <= i < n - 1 ==> Passes(o, t, steps, i))
    && (e.outcome.Ok? ==> forall i :: 0 <= i < n ==> Passes(o, t, steps, i))
    && (e.outcome.Raised? ==>
          && 0 < n
          && !Passes(o, t, steps, n - 1)
          && e.outcome == Check(steps[n - 1], o(t + e.issued[..n - 1], e.issued[n - 1])))
  }

  /** The facts about a pipeline's result carry over from its first m - 1
      steps when those already raised. */
  lemma LastIssuedDecidesRaised(o: Oracle, t: Trace, steps: seq<Step>)
    requires steps != []
    requires RunSteps(o, t, steps[..|steps| - 1]).outcome.Raised?
    requires LastIssuedDecides(o, t, steps[..|steps| - 1], RunSteps(o, t, steps[..|steps| - 1]))
    ensures LastIssuedDecides(o, t, steps, RunSteps(o, t, steps))
  {
    RunStepsStaysRaised(o, t, steps, |steps| - 1);
    RaisedDecidesInSteps(o, t, steps, RunSteps(o, t, steps[..|steps| - 1]));
  }

  lemma RaisedDecidesInSteps(o: Oracle, t: Trace, steps: seq<Step>, e: Effect)
    requires steps != [] && |e.issued| < |steps| && e.outcome.Raised?
    requires LastIssuedDecides(o, t, steps[..|steps| - 1], e)
    ensures LastIssuedDecides(o, t, steps, e)
  {
    var m := |steps|;
    var n := |e.issued|;
    forall i | 0 <= i < n
      ensures Passes(o, t, steps[..m - 1], i) == Passes(o, t, steps, i)
    {
      PassesOnPrefix(o, t, steps, m - 1, i);
    }
    assert steps[..m - 1][n - 1] == steps[n - 1];
  }

  /** ... and gain the last step when they ended normally. */
  lemma LastIssuedDecidesOk(o: Oracle, t: Trace, steps: seq<Step>, init: seq<Step>)
    requires steps != [] && init == steps[..|steps| - 1]
    requires RunSteps(o, t, init).outcome.Ok?
    requires RunSteps(o, t, init).issued == Events(init)
    requires forall i :: 0 <= i < |init| ==> Passes(o, t, init, i)
    ensures LastIssuedDecides(o, t, steps, RunSteps(o, t, steps))
  {
    var m := |steps|;
    var e := RunSteps(o, t, steps);
    InitPassesInSteps(o, t, steps, init);
    LastStepDecides(o, t, steps, init);
    assert |e.issued| == m;
  }

  lemma InitPassesInSteps(o: Oracle, t: Trace, steps: seq<Step>, init: seq<Step>)
    requires steps != [] && init == steps[..|steps| - 1]
    requires forall i :: 0 <= i < |init| ==> Passes(o, t, init, i)
    ensures forall i :: 0 <= i < |init| ==> Passes(o, t, steps, i)
  {
    forall i | 0 <= i < |init|
      ensures Passes(o, t, steps, i)
    {
      PassesOnPrefix(o, t, steps, |init|, i);
    }
  }

  lemma LastStepDecides(o: Oracle, t: Trace, steps: seq<Step>, init: seq<Step>)
    requires steps != [] && init == steps[..|steps| - 1]
    requires RunSteps(o, t, init).outcome.Ok?
    requires RunSteps(o, t, init).issued == Events(init)
    ensures var e := RunSteps(o, t, steps); var m := |steps|;
      && |e.issued| == m
      && e.outcome == Check(steps[m - 1], o(t + e.issued[..m - 1], e.issued[m - 1]))
      && (e.outcome.Ok? <==> Passes(o, t, steps, m - 1))
  {
    var m := |steps|;
    var e := RunSteps(o, t, steps);
    var prior := RunSteps(o, t, init);
    assert e.issued[..m - 1] == prior.issued;
  }

  /** Every issued step but the last passed; the last passed exactly when the
      pipeline ends normally, and otherwise its exception is the outcome. */
  lemma {:induction false} RunStepsLastIssuedDecides(o: Oracle, t: Trace, steps: seq<Step>)
    ensures LastIssuedDecides(o, t, steps, RunSteps(o, t, steps))
    decreases |steps|
  {
    if steps != [] {
      var init := steps[..|steps| - 1];
      RunStepsLastIssuedDecides(o, t, init);
      if RunSteps(o, t, init).outcome.Raised? {
        LastIssuedDecidesRaised(o, t, steps);
      } else {
        RunStepsIssuesPrefix(o, t, init);
        assert init[..|init|] == init;
        LastIssuedDecidesOk(o, t, steps, init);
      }
    }
  }

  /** A pipeline issues exactly its steps up to the first one that fails,
      in order; it ends normally exactly when every step passes, and otherwise
      raises the failing step's exception. */
  lemma RunStepsStopsAtFirstFailure(o: Oracle, t: Trace, steps: seq<Step>)
    ensures var e := RunSteps(o, t, steps); var n := |e.issued|;
      && n <= |steps|
      && e.issued == Events(steps[..n])
      && (forall i :: 0 <= i < n - 1 ==> Passes(o, t, steps, i))
      && (e.outcome.Ok? <==> n == |steps| && forall i :: 0 <= i < |steps| ==> Passes(o, t, steps, i))
      && (e.outcome.Raised? ==>
            && 0 < n
            && !Passes(o, t, steps, n - 1)
            && e.outcome == Check(steps[n - 1], o(t + e.issued[..n - 1], e.issued[n - 1])))
  {
    RunStepsIssuesPrefix(o, t, steps);
    RunStepsLastIssuedDecides(o, t, steps);
  }

  /** Every step a pipeline issued before its last one passed: its check of
      the reply it got was Ok. */
  lemma PassedBeforeLast(o: Oracle, t: Trace, steps: seq<Step>, k: nat)
    requires k + 1 < |RunSteps(o, t, steps).issued|
    ensures var e := RunSteps(o, t, steps);
      && e.issued[k] == EventOf(steps[k]) && e.issued[k + 1] == EventOf(steps[k + 1])
      && Check(steps[k], o(t + e.issued[..k], e.issued[k])).Ok?
  {
    RunStepsStopsAtFirstFailure(o, t, steps);
    assert Passes(o, t, steps, k);
    IssuedStep(o, t, steps, k);
    IssuedStep(o, t, steps, k + 1);
  }

  /** Step k of what a pipeline issued is the event of its k-th step, and it
      passes exactly when its check of the reply it got is Ok. */
  lemma IssuedStep(o: Oracle, t: Trace, steps: seq<Step>, k: nat)
    requires k < |RunSteps(o, t, steps).issued|
    ensures var e := RunSteps(o, t, steps);
      && e.issued[k] == EventOf(steps[k])
      && (Passes(o, t, steps, k) <==> Check(steps[k], o(t + e.issued[..k], e.issued[k])).Ok?)
  {
    var e := RunSteps(o, t, steps);
    RunStepsIssuesPrefix(o, t, steps);
    assert e.issued[..k] == Events(steps[..k]);
  }

  /** For a pipeline of ssh commands: the commands go out in order; every
      one before the last left stderr empty; the pipeline raises exactly when
      the last one wrote to stderr, with that text as the exception. */
  lemma RemoteStepsStopAtFirstFailure(o: Oracle, t: Trace, steps: seq<Step>)
    requires forall k :: 0 <= k < |steps| ==> steps[k].Remote?
    ensures var e := RunSteps(o, t, steps); var n := |e.issued|;
      && (forall k :: 0 <= k < n ==> e.issued[k] == Exec(steps[k].cmd))
      && (forall k :: 0 <= k < n - 1 ==> o(t + e.issued[..k], e.issued[k]).stderr == "")
      && (e.outcome.Ok? ==> n == |steps| && (n > 0 ==> o(t + e.issued[..n - 1], e.issued[n - 1]).stderr == ""))
      && (e.outcome.Raised? ==>
            && 0 < n
            && o(t + e.issued[..n - 1], e.issued[n - 1]).stderr != ""
            && e.outcome == Raised(SshError(o(t + e.issued[..n - 1], e.issued[n - 1]).stderr)))
  {
    var e := RunSteps(o, t, steps);
    var n := |e.issued|;
    RunStepsStopsAtFirstFailure(o, t, steps);
    forall k | 0 <= k < n
      ensures e.issued[k] == Exec(steps[k].cmd)
      ensures Passes(o, t, steps, k) <==> o(t + e.issued[..k], e.issued[k]).stderr == ""
    {
      IssuedStep(o, t, steps, k);
    }
  }

  /** For a pipeline of local commands: the commands go out in order; every
      one before the last exited 0; the pipeline raises exactly when the last
      one exited non-zero, with a CalledProcessError for that command. */
  lemma LocalStepsStopAtFirstFailure(o: Oracle, t: Trace, steps: seq<Step>)
    requires forall k :: 0 <= k < |steps| ==> steps[k].Local?
    ensures var e := RunSteps(o, t, steps); var n := |e.issued|;
      && (forall k :: 0 <= k < n ==> e.issued[k] == Run(steps[k].cmd))
      && (forall k :: 0 <= k < n - 1 ==> o(t + e.issued[..k], e.issued[k]).code == 0)
      && (e.outcome.Ok? ==> n == |steps| && (n > 0 ==> o(t + e.issued[..n - 1], e.issued[n - 1]).code == 0))
      && (e.outcome.Raised? ==>
            && 0 < n
            && o(t + e.issued[..n - 1], e.issued[n - 1]).code != 0
            && e.outcome == Raised(CalledProcessError(steps[n - 1].cmd, o(t + e.issued[..n - 1], e.issued[n - 1]).code)))
  {
    var e := RunSteps(o, t, steps);
    var n := |e.issued|;
    RunStepsStopsAtFirstFailure(o, t, steps);
    forall k | 0 <= k < n
      ensures e.issued[k] == Run(steps[k].cmd)
      ensures Passes(o, t, steps, k) <==> o(t + e.issued[..k], e.issued[k]).code == 0
    {
      IssuedStep(o, t, steps, k);
    }
  }

  /** Step i+1 of a pipeline whose first i steps passed: used by the loops. */
  lemma RunStepsSnoc(o: Oracle, t: Trace, steps: seq<Step>, i: nat)
    requires i < |steps|
    requires RunSteps(o, t, steps[..i]).outcome.Ok?
    ensures var prior := RunSteps(o, t, steps[..i]);
      RunSteps(o, t, steps[..i + 1])
        == Effect(prior.issued + [EventOf(steps[i])], Check(steps[i], o(t + prior.issued, EventOf(steps[i]))))
  {
    assert steps[..i + 1][..i] == steps[..i];
  }

  /** Running a + b is running a and, if it ended normally, b after it. */
  lemma {:induction false} RunStepsConcat(o: Oracle, t: Trace, a: seq<Step>, b: seq<Step>)
    ensures var ea := RunSteps(o, t, a);
      RunSteps(o, t, a + b) ==
        if ea.outcome.Raised? then ea
        else var eb := RunSteps(o, t + ea.issued, b); Effect(ea.issued + eb.issued, eb.outcome)
    decreases |b|
  {
    if b == [] {
      assert a + b == a;
    } else {
      var b' := b[..|b| - 1];
      assert (a + b)[..|a + b| - 1] == a + b';
      assert (a + b)[|a + b| - 1] == b[|b| - 1];
      RunStepsConcat(o, t, a, b');
      var ea := RunSteps(o, t, a);
      if ea.outcome.Ok? {
        var eb' := RunSteps(o, t + ea.issued, b');
        assert t + ea.issued + eb'.issued == t + (ea.issued + eb'.issued);
      }
    }
  }

  /** A pipeline of one step issues its event and reports its check. */
  lemma RunStepsSingle(o: Oracle, t: Trace, s: Step)
    ensures RunSteps(o, t, [s]) == Effect([EventOf(s)], Check(s, o(t, EventOf(s))))
  {
    assert [s][..0] == [];
    assert t + RunSteps(o, t, []).issued == t;
  }

  /** Once a prefix of a pipeline has raised, the rest is never attempted. */
  lemma RunStepsStaysRaised(o: Oracle, t: Trace, steps: seq<Step>, k: nat)
    requires k <= |steps|
    requires RunSteps(o, t, steps[..k]).outcome.Raised?
    ensures RunSteps(o, t, steps) == RunSteps(o, t, steps[..k])
  {
    RunStepsConcat(o, t, steps[..k], steps[k..]);
    assert steps[..k] + steps[k..] == steps;
  }

  /** Where a run from trace t ends: the trace after it and its outcome. */
  function Finish(t: Trace, e: Effect): (Trace, Outcome<()>)
  {
    (t + e.issued, e.outcome)
  }

  /** A pipeline run stage by stage. Its first stage, `piece`, took the trace
      from t to `after` with outcome r. If r raised, the whole pipeline ends
      there; otherwise it ends where the remaining stages, run from `after`,
      end. */
  lemma RunStage(o: Oracle, t: Trace, piece: seq<Step>, rest: seq<Step>, after: Trace, r: Outcome<()>)
    requires after == t + RunSteps(o, t, piece).issued && r == RunSteps(o, t, piece).outcome
    ensures Finish(t, RunSteps(o, t, piece + rest))
      == if r.Raised? then (after, r) else Finish(after, RunSteps(o, after, rest))
  {
    RunStepsConcat(o, t, piece, rest);
    if r.Ok? {
      var eb := RunSteps(o, after, rest);
      assert t + (RunSteps(o, t, piece).issued + eb.issued) == after + eb.issued;
    }
  }

  /** RunStage for a first stage of one step. */
  lemma RunStageSingle(o: Oracle, t: Trace, s: Step, rest: seq<Step>, after: Trace, r: Outcome<()>)
    requires after == t + [EventOf(s)] && r == Check(s, o(t, EventOf(s)))
    ensures Finish(t, RunSteps(o, t, [s] + rest))
      == if r.Raised? then (after, r) else Finish(after, RunSteps(o, after, rest))
  {
    RunStepsSingle(o, t, s);
    RunStage(o, t, [s], rest, after, r);
  }

  /** The first i steps of a pipeline, run from t0, all passed and left the
      trace at `trace`. */
  ghost predicate PassedFirst(o: Oracle, t0: Trace, steps: seq<Step>, i: nat, trace: Trace)
  {
    i <= |steps| && RunSteps(o, t0, steps[..i]).outcome == Ok(()) && trace == t0 + RunSteps(o, t0, steps[..i]).issued
  }

  /** One more step of a pipeline whose first i steps passed: if it passes,
      i + 1 steps have; if it raises, the pipeline ends with it. */
  lemma RunNext(o: Oracle, t0: Trace, steps: seq<Step>, i: nat, before: Trace, after: Trace, r: Outcome<()>)
    requires i < |steps| && PassedFirst(o, t0, steps, i, before)
    requires after == before + [EventOf(steps[i])] && r == Check(steps[i], o(before, EventOf(steps[i])))
    ensures r.Ok? ==> PassedFirst(o, t0, steps, i + 1, after)
    ensures r.Raised? ==> Finish(t0, RunSteps(o, t0, steps)) == (after, r)
  {
    RunStepsSnoc(o, t0, steps, i);
    var prior := RunSteps(o, t0, steps[..i]);
    assert after == t0 + (prior.issued + [EventOf(steps[i])]);
    if r.Raised? {
      RunStepsStaysRaised(o, t0, steps, i + 1);
    }
  }

  /** A pipeline all of whose steps passed. */
  lemma PassedAll(o: Oracle, t0: Trace, steps: seq<Step>, trace: Trace)
    requires PassedFirst(o, t0, steps, |steps|, trace)
    ensures Finish(t0, RunSteps(o, t0, steps)) == (trace, Ok(()))
  {
    assert steps[..|steps|] == steps;
  }

  /** Runs the steps in order and stops at the first that fails. */
  method RunAll(h: Host, steps: seq<Step>) returns (r: Outcome<()>)
    modifies h
    ensures var e := RunSteps(h.oracle, old(h.trace), steps);
      h.trace == old(h.trace) + e.issued && r == e.outcome
  {
    ghost var t0 := h.trace;
    var i := 0;
    while i < |steps|
      invariant PassedFirst(h.oracle, t0, steps, i, h.trace)
    {
      ghost var before := h.trace;
      r := Execute(h, steps[i]);
      RunNext(h.oracle, t0, steps, i, before, h.trace, r);
      if r.Raised? {
        return;
      }
      i := i + 1;
    }
    PassedAll(h.oracle, t0, steps, h.trace);
    r := Ok(());
  }
}
