/** The `while True` status loops of the monitors: poll, decide from the reply
    whether to stop, and otherwise sleep a fixed interval and poll again. The
    loops have no deadline; `fuel` only bounds how many polls the model follows. */
module Polling {
  import opened Effects

  /** What a monitor makes of one status reply. */
  datatype Verdict<R> = Stop(result: R) | Continue

  /** The events a monitor issued and, when it stopped, why. `end` is None only
      when the model's fuel ran out while the remote job was still running. */
  datatype Watch<R> = Watch(issued: Trace, end: Option<R>)

  function PollSpec<R>(o: Oracle, t: Trace, request: Event, classify: Reply -> Verdict<R>,
                       interval: nat, fuel: nat): (w: Watch<R>)
    ensures |w.issued| <= 2 * fuel
    decreases fuel
  {
    if fuel == 0 then Watch([], None)
    else
      match classify(o(t, request))
      case Stop(r) => Watch([request], Some(r))
      case Continue =>
        var rest := PollSpec(o, t + [request, Sleep(interval)], request, classify, interval, fuel - 1);
        Watch([request, Sleep(interval)] + rest.issued, rest.end)
  }

  /** The status poll was answered with `Continue` at position k of `issued`. */
  ghost predicate ContinuedAt<R>(o: Oracle, t: Trace, issued: Trace, classify: Reply -> Verdict<R>, k: nat)
    requires k < |issued|
  {
    classify(o(t + issued[..k], issued[k])) == Continue
  }

  /** The events of a monitoring run: polls at even positions, sleeps at odd
      ones; it ends on a poll when something stopped it and otherwise polls as
      often as the fuel allows. */
  lemma {:induction false} PollEvents<R>(o: Oracle, t: Trace, request: Event, classify: Reply -> Verdict<R>,
                                         interval: nat, fuel: nat)
    ensures var w := PollSpec(o, t, request, classify, interval, fuel); var n := |w.issued|;
      && (forall k :: 0 <= k < n ==> w.issued[k] == if k % 2 == 0 then request else Sleep(interval))
      && (w.end.None? ==> n == 2 * fuel)
      && (w.end.Some? ==> n % 2 == 1)
    decreases fuel
  {
    if fuel > 0 && classify(o(t, request)).Continue? {
      var t' := t + [request, Sleep(interval)];
      PollEvents(o, t', request, classify, interval, fuel - 1);
    }
  }

  /** Every poll followed by a sleep was answered `Continue`, and a run that
      stopped reports the verdict of its last poll. */
  lemma {:induction false} PollVerdicts<R>(o: Oracle, t: Trace, request: Event, classify: Reply -> Verdict<R>,
                                           interval: nat, fuel: nat)
    ensures var w := PollSpec(o, t, request, classify, interval, fuel); var n := |w.issued|;
      && (forall k :: 0 <= k < n - 1 && k % 2 == 0 ==> ContinuedAt(o, t, w.issued, classify, k))
      && (w.end.Some? ==> 0 < n && classify(o(t + w.issued[..n - 1], request)) == Stop(w.end.value))
    decreases fuel
  {
    if fuel > 0 && classify(o(t, request)).Stop? {
      assert t + PollSpec(o, t, request, classify, interval, fuel).issued[..0] == t;
    } else if fuel > 0 {
      var pre := [request, Sleep(interval)];
      var t' := t + pre;
      PollVerdicts(o, t', request, classify, interval, fuel - 1);
      var rest := PollSpec(o, t', request, classify, interval, fuel - 1);
      var w := PollSpec(o, t, request, classify, interval, fuel);
      assert w.issued == pre + rest.issued;
      forall k | 2 <= k <= |w.issued|
        ensures t + w.issued[..k] == t' + rest.issued[..k - 2]
      {
        assert w.issued[..k] == pre + rest.issued[..k - 2];
      }
      forall k | 0 <= k < |w.issued| - 1 && k % 2 == 0
        ensures ContinuedAt(o, t, w.issued, classify, k)
      {
        if k >= 2 {
          assert ContinuedAt(o, t', rest.issued, classify, k - 2);
        } else {
          assert t + w.issued[..0] == t;
        }
      }
    }
  }

  /** A run that has issued `done` and has `fuel` polls left from trace t,
      after one more poll answered `Continue` and its sleep. */
  lemma PollSpecContinue<R>(o: Oracle, t: Trace, request: Event, classify: Reply -> Verdict<R>,
                            interval: nat, fuel: nat, done: Trace, whole: Watch<R>)
    requires fuel > 0 && classify(o(t, request)).Continue?
    requires var w := PollSpec(o, t, request, classify, interval, fuel); whole == Watch(done + w.issued, w.end)
    ensures var rest := PollSpec(o, t + [request, Sleep(interval)], request, classify, interval, fuel - 1);
      whole == Watch(done + [request, Sleep(interval)] + rest.issued, rest.end)
  {
  }

  /** ... and after one poll answered `Stop`. */
  lemma PollSpecStop<R>(o: Oracle, t: Trace, request: Event, classify: Reply -> Verdict<R>,
                        interval: nat, fuel: nat, done: Trace, whole: Watch<R>)
    requires fuel > 0 && classify(o(t, request)).Stop?
    requires var w := PollSpec(o, t, request, classify, interval, fuel); whole == Watch(done + w.issued, w.end)
    ensures whole == Watch(done + [request], Some(classify(o(t, request)).result))
  {
  }

  /** One round of the loop body: poll, and sleep unless told to stop. */
  method PollOnce<R>(h: Host, request: Event, classify: Reply -> Verdict<R>, interval: nat)
    returns (verdict: Verdict<R>)
    modifies h
    ensures verdict == classify(h.oracle(old(h.trace), request))
    ensures h.trace == old(h.trace) + if verdict.Stop? then [request] else [request, Sleep(interval)]
  {
    var reply := h.Perform(request);
    verdict := classify(reply);
    if verdict.Continue? {
      var _ := h.Perform(Sleep(interval));
    }
  }

  /** Polls `request` until `classify` says stop, sleeping `interval` seconds
      after each poll it does not stop on. */
  method Poll<R>(h: Host, request: Event, classify: Reply -> Verdict<R>, interval: nat, fuel: nat)
    returns (end: Option<R>)
    modifies h
    ensures var w := PollSpec(h.oracle, old(h.trace), request, classify, interval, fuel);
      h.trace == old(h.trace) + w.issued && end == w.end
  {
    ghost var o := h.oracle;
    ghost var t0 := h.trace;
    ghost var whole := PollSpec(o, t0, request, classify, interval, fuel);
    ghost var done: Trace := [];
    var left := fuel;
    while left > 0
      invariant h.oracle == o
      invariant h.trace == t0 + done
      invariant var w := PollSpec(o, h.trace, request, classify, interval, left);
        whole == Watch(done + w.issued, w.end)
    {
      ghost var before := h.trace;
      var verdict := PollOnce(h, request, classify, interval);
      if verdict.Stop? {
        PollSpecStop(o, before, request, classify, interval, left, done, whole);
        return Some(verdict.result);
      }
      PollSpecContinue(o, before, request, classify, interval, left, done, whole);
      done := done + [request, Sleep(interval)];
      left := left - 1;
    }
    return None;
  }
}
