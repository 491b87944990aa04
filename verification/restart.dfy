/** main's outer loop, independent of what one pass does: a pass either
    raises or ends on a restart answer, and the loop goes on exactly while
    that answer, lower-cased, is "yes". */
module Restart {
  import opened Common
  import opened Text

  /** One completed pass: what it computed, the restart answer it read, and
      the position in the input where the next pass would start reading. */
  datatype Pass<+R> = Pass(round: R, restart: string, next: nat)

  /** How a run ends: the passes completed, and the exception that stopped
      the script, if any. */
  datatype Run<+R> = Run(passes: seq<Pass<R>>, abort: Option<Abort>)

  /** The answer that makes main go round again. */
  predicate Restarts(answer: string) {
    Lower(answer) == "yes"
  }

  /** A pass started at any position up to n is defined, and a completed
      pass reads at least one answer without running past n. */
  ghost predicate Steps<R>(step: nat --> Result<Pass<R>, Abort>, n: nat) {
    forall p: nat :: p <= n ==> step.requires(p) && (step(p).Ok? ==> p < step(p).value.next <= n)
  }

  /** while True: run a pass; break unless its restart answer is "yes". */
  function Loop<R>(step: nat --> Result<Pass<R>, Abort>, n: nat, pos: nat): (run: Run<R>)
    requires pos <= n
    requires Steps(step, n)
    decreases n - pos
  {
    match step(pos)
    case Err(e) => Run([], Some(e))
    case Ok(p) =>
      if !Restarts(p.restart) then Run([p], None)
      else
        var rest := Loop(step, n, p.next);
        Run([p] + rest.passes, rest.abort)
  }

  /** Every pass reads at least one answer, so a run has at most one pass
      per answer left. */
  lemma {:induction false} LoopBounded<R>(step: nat --> Result<Pass<R>, Abort>, n: nat, pos: nat)
    requires pos <= n
    requires Steps(step, n)
    ensures |Loop(step, n, pos).passes| <= n - pos
    decreases n - pos
  {
    if step(pos).Ok? && Restarts(step(pos).value.restart) {
      LoopBounded(step, n, step(pos).value.next);
    }
  }

  /** One turn of the loop: a pass that raises ends the run, one answered
      other than "yes" is the last, and after a "yes" the run goes on from
      where that pass stopped. */
  lemma LoopOnce<R>(step: nat --> Result<Pass<R>, Abort>, n: nat, pos: nat)
    requires pos <= n
    requires Steps(step, n)
    ensures step(pos).Err? ==> Loop(step, n, pos).passes == [] && Loop(step, n, pos).abort == Some(step(pos).error)
    ensures step(pos).Ok? && !Restarts(step(pos).value.restart) ==>
      Loop(step, n, pos).passes == [step(pos).value] && Loop(step, n, pos).abort.None?
    ensures step(pos).Ok? && Restarts(step(pos).value.restart) ==>
      Loop(step, n, pos).passes == [step(pos).value] + Loop(step, n, step(pos).value.next).passes &&
      Loop(step, n, pos).abort == Loop(step, n, step(pos).value.next).abort
  {
  }

  /** Appending the passes of a run one at a time. */
  lemma AppendPass<R>(done: seq<Pass<R>>, p: Pass<R>, rest: seq<Pass<R>>)
    ensures done + ([p] + rest) == (done + [p]) + rest
  {
  }

  /** Where the i-th pass starts reading: at pos for the first, after the
      previous pass's restart answer for every other. */
  function StartOf<R>(pos: nat, passes: seq<Pass<R>>, i: nat): nat
    requires i <= |passes|
  {
    if i == 0 then pos else passes[i - 1].next
  }

  /** The loop repeats exactly while the restart answer is "yes": every pass
      but the last was answered "yes"; a run that ends normally ends on
      another answer; a run cut short by an exception answered "yes" every
      time before it. */
  lemma {:induction false} RestartsOnlyOnYes<R>(step: nat --> Result<Pass<R>, Abort>, n: nat, pos: nat)
    requires pos <= n
    requires Steps(step, n)
    ensures var run := Loop(step, n, pos);
      (forall i :: 0 <= i < |run.passes| - 1 ==> Restarts(run.passes[i].restart)) &&
      (run.abort.None? ==> |run.passes| > 0 && !Restarts(run.passes[|run.passes| - 1].restart)) &&
      (run.abort.Some? && |run.passes| > 0 ==> Restarts(run.passes[|run.passes| - 1].restart))
    decreases n - pos
  {
    match step(pos)
    case Err(e) =>
    case Ok(p) =>
      if Restarts(p.restart) {
        RestartsOnlyOnYes(step, n, p.next);
        var rest := Loop(step, n, p.next);
        assert forall i :: 1 <= i < 1 + |rest.passes| ==> ([p] + rest.passes)[i] == rest.passes[i - 1];
      }
  }

  /** Putting a pass in front shifts every later start by one position. */
  lemma StartAfterFirst<R>(pos: nat, p: Pass<R>, rest: seq<Pass<R>>, i: nat)
    requires 1 <= i <= 1 + |rest|
    ensures StartOf(pos, [p] + rest, i) == StartOf(p.next, rest, i - 1)
  {
    if i > 1 {
      assert ([p] + rest)[i - 1] == rest[i - 2];
    }
  }

  /** The i-th pass of the run is what a pass started where it says computes. */
  lemma {:induction false} PassAt<R>(step: nat --> Result<Pass<R>, Abort>, n: nat, pos: nat, i: nat)
    requires pos <= n
    requires Steps(step, n)
    requires i < |Loop(step, n, pos).passes|
    ensures StartOf(pos, Loop(step, n, pos).passes, i) <= n
    ensures step(StartOf(pos, Loop(step, n, pos).passes, i)) == Ok(Loop(step, n, pos).passes[i])
    decreases n - pos
  {
    var run := Loop(step, n, pos);
    LoopOnce(step, n, pos);
    var p := step(pos).value;
    if i > 0 {
      var rest := Loop(step, n, p.next).passes;
      PassAt(step, n, p.next, i - 1);
      StartAfterFirst(pos, p, rest, i);
      assert run.passes[i] == rest[i - 1];
    }
  }

  /** Every pass of the run is what a pass started where it says computes:
      the first from pos, each later one from where the previous one stopped. */
  lemma PassesFollowSteps<R>(step: nat --> Result<Pass<R>, Abort>, n: nat, pos: nat)
    requires pos <= n
    requires Steps(step, n)
    ensures var run := Loop(step, n, pos);
      forall i :: 0 <= i < |run.passes| ==>
        StartOf(pos, run.passes, i) <= n && step(StartOf(pos, run.passes, i)) == Ok(run.passes[i])
  {
    forall i | 0 <= i < |Loop(step, n, pos).passes| {
      PassAt(step, n, pos, i);
    }
  }

  /** A run cut short ends on the pass that raised, started where the last
      completed pass stopped. */
  lemma {:induction false} AbortFollowsSteps<R>(step: nat --> Result<Pass<R>, Abort>, n: nat, pos: nat)
    requires pos <= n
    requires Steps(step, n)
    ensures var run := Loop(step, n, pos);
      run.abort.Some? ==>
        StartOf(pos, run.passes, |run.passes|) <= n &&
        step(StartOf(pos, run.passes, |run.passes|)) == Err(run.abort.value)
    decreases n - pos
  {
    var run := Loop(step, n, pos);
    match step(pos)
    case Err(e) =>
    case Ok(p) =>
      if Restarts(p.restart) {
        AbortFollowsSteps(step, n, p.next);
        var rest := Loop(step, n, p.next);
        LoopOnce(step, n, pos);
        StartAfterFirst(pos, p, rest.passes, |run.passes|);
      }
  }

  /** Each pass starts reading strictly after the previous one did. */
  lemma {:induction false} StartsIncrease<R>(step: nat --> Result<Pass<R>, Abort>, n: nat, pos: nat, i: nat)
    requires pos <= n
    requires Steps(step, n)
    requires i < |Loop(step, n, pos).passes|
    ensures StartOf(pos, Loop(step, n, pos).passes, i) < StartOf(pos, Loop(step, n, pos).passes, i + 1)
  {
    var run := Loop(step, n, pos);
    PassesFollowSteps(step, n, pos);
    var s := StartOf(pos, run.passes, i);
    assert step(s) == Ok(run.passes[i]);
  }
}
