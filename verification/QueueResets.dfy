// Exactly which requeues of stuck rows are safe, over runs: a requeue that meets a held copy
// claimed before its cutoff can always be followed by the same job being processed twice at once.
module QueueResets {
  import opened JobTable
  import opened Queue
  import opened QueueSafety
  import QueueRuns

  /** Two copies of one job are being processed at the same time. */
  ghost predicate ProcessedTwice(s: State) {
    exists c, d :: c in s.held && d in s.held && c != d && c.job == d.job && c.stage.Started? && d.stage.Started?
  }

  /** One run goes on where the other stops. */
  ghost predicate Continues(states: seq<State>, steps: seq<Step>, longer: seq<State>, more: seq<Step>) {
    states <= longer && steps <= more
  }

  /** Every requeue from the n-th step on spares the copies held. */
  ghost predicate SparesFrom(states: seq<State>, steps: seq<Step>, n: nat)
    requires |states| == |steps| + 1
  {
    forall i :: n <= i < |steps| ==> Spares(states[i], steps[i])
  }

  /** From an exclusive state, requeuing stuck rows keeps exclusivity iff no held copy was
      claimed before the cutoff. */
  lemma ResetKeepsExclusiveIff(cfg: Config, s: State, st: Step)
    requires Exclusive(s) && st.Reset?
    ensures Exclusive(Next(cfg, s, st)) <==> Spares(s, st)
  {
    var t := Next(cfg, s, st);
    forall c | c in s.held && c.job in s.rows
      ensures Owns(t, c) <==> c.claimedAt >= st.cutoff
    {
      assert Owns(s, c);
    }
  }

  // --- building a continuation ----------------------------------------------------------------------

  lemma OneStepMore(cfg: Config, states: seq<State>, steps: seq<Step>, st: Step)
    requires IsRun(cfg, states, steps) && Enabled(cfg, states[|steps|], st)
    ensures IsRun(cfg, states + [Next(cfg, states[|steps|], st)], steps + [st])
  {
    hide Enabled, Next;
    var longer, more := states + [Next(cfg, states[|steps|], st)], steps + [st];
    forall i | 0 <= i < |more|
      ensures Enabled(cfg, longer[i], more[i]) && longer[i + 1] == Next(cfg, longer[i], more[i])
    {
      if i < |steps| {
        assert longer[i] == states[i] && longer[i + 1] == states[i + 1] && more[i] == steps[i];
      }
    }
  }

  /** A run and one more step, not a requeue. */
  lemma StepOn(cfg: Config, states: seq<State>, steps: seq<Step>, st: Step, n: nat)
    returns (longer: seq<State>, more: seq<Step>)
    requires IsRun(cfg, states, steps) && Enabled(cfg, states[|steps|], st) && !st.Reset?
        && SparesFrom(states, steps, n)
    ensures IsRun(cfg, longer, more) && Continues(states, steps, longer, more) && SparesFrom(longer, more, n)
    ensures longer[|more|] == Next(cfg, states[|steps|], st)
  {
    OneStepMore(cfg, states, steps, st);
    hide Enabled, Next;
    longer, more := states + [Next(cfg, states[|steps|], st)], steps + [st];
    forall i | n <= i < |more| ensures Spares(longer[i], more[i]) {
      if i < |steps| {
        assert longer[i] == states[i] && more[i] == steps[i];
      }
    }
  }

  /** A held copy can always be taken to its processor; nothing else changes. */
  lemma TakeToProcessor(cfg: Config, states: seq<State>, steps: seq<Step>, c: Copy, n: nat)
    returns (longer: seq<State>, more: seq<Step>, running: Copy)
    requires IsRun(cfg, states, steps) && SparesFrom(states, steps, n) && c in states[|steps|].held
    ensures IsRun(cfg, longer, more) && Continues(states, steps, longer, more) && SparesFrom(longer, more, n)
    ensures running.stage.Started? && running.job == c.job && running.attempt == c.attempt
    ensures running in longer[|more|].held
    ensures forall x :: x in states[|steps|].held && x.attempt != c.attempt ==> x in longer[|more|].held
  {
    longer, more, running := states, steps, c;
    if running.stage.Fetched? {
      longer, more := StepOn(cfg, longer, more, Enqueue(running), n);
      running := running.(stage := Queued);
    }
    if running.stage.Queued? {
      running := running.(stage := Started(longer[|more|].now));
      longer, more := StepOn(cfg, longer, more, Start(running.(stage := Queued)), n);
    }
  }

  /** After a requeue that took a held copy's row, the job can be claimed again at once. */
  lemma ClaimAgain(cfg: Config, s: State, st: Step, c: Copy)
    requires Inv(cfg, s) && Enabled(cfg, s, st) && st.Reset?
    requires c in s.held && c.job in s.rows && c.claimedAt < st.cutoff
    ensures var t := Next(cfg, s, st);
      && Enabled(cfg, t, Claim({c.job}, t.rows.Keys - {c.job}, t.now))
      && var u := Next(cfg, t, Claim({c.job}, t.rows.Keys - {c.job}, t.now));
         c in u.held && Copy(c.job, c.attempt + 1, t.now, Fetched) in u.held
  {
    assert Owns(s, c);
    var t := Next(cfg, s, st);
    var locked := t.rows.Keys - {c.job};
    assert Eligible(t.rows, locked, t.now, c.job);
    forall id | Eligible(t.rows, locked, t.now, id) ensures id == c.job {
    }
  }

  /** Once a copy of a job is held beside a newer one, both can be taken to their processors. */
  lemma BothGetProcessed(cfg: Config, states: seq<State>, steps: seq<Step>, c: Copy, d: Copy, n: nat)
    returns (longer: seq<State>, more: seq<Step>)
    requires IsRun(cfg, states, steps) && SparesFrom(states, steps, n)
    requires c in states[|steps|].held && d in states[|steps|].held && c.job == d.job && c.attempt != d.attempt
    ensures IsRun(cfg, longer, more) && Continues(states, steps, longer, more) && SparesFrom(longer, more, n)
    ensures ProcessedTwice(longer[|more|])
  {
    var mid, midSteps, c' := TakeToProcessor(cfg, states, steps, c, n);
    var d': Copy;
    longer, more, d' := TakeToProcessor(cfg, mid, midSteps, d, n);
    assert c' in longer[|more|].held && d' in longer[|more|].held;
  }

  /** A run that ends in a requeue which does not spare a held copy can go on, with no requeue at
      all, until that copy's job is being processed twice. */
  lemma UnsparingResetDoubles(cfg: Config, states: seq<State>, steps: seq<Step>)
    returns (longer: seq<State>, more: seq<Step>)
    requires IsRun(cfg, states, steps) && steps != [] && !Spares(states[|steps| - 1], steps[|steps| - 1])
    requires forall i :: 0 <= i < |steps| - 1 ==> Spares(states[i], steps[i])
    ensures IsRun(cfg, longer, more) && Continues(states, steps, longer, more) && SparesFrom(longer, more, |steps|)
    ensures ProcessedTwice(longer[|more|])
  {
    var n := |steps| - 1;
    var s, st := states[n], steps[n];
    InvBefore(cfg, states, steps);
    var c :| c in s.held && c.job in s.rows && c.claimedAt < st.cutoff;
    ClaimAgain(cfg, s, st, c);
    var t := states[n + 1];
    longer, more := StepOn(cfg, states, steps, Claim({c.job}, t.rows.Keys - {c.job}, t.now), |steps|);
    var mid, midSteps := longer, more;
    longer, more := BothGetProcessed(cfg, mid, midSteps, c, Copy(c.job, c.attempt + 1, t.now, Fetched), |steps|);
  }

  lemma InvBefore(cfg: Config, states: seq<State>, steps: seq<Step>)
    requires IsRun(cfg, states, steps) && steps != []
    requires forall i :: 0 <= i < |steps| - 1 ==> Spares(states[i], steps[i])
    ensures Inv(cfg, states[|steps| - 1])
  {
    hide Enabled, Next, Inv, Spares;
    var before, fewer := states[..|steps|], steps[..|steps| - 1];
    assert CarefulRun(cfg, before, fewer);
    QueueRuns.RunInv(cfg, before, fewer, |steps| - 1);
  }

  // --- the exact condition --------------------------------------------------------------------------

  /** No way to go on from this run, sparing the held copies from now on, has a job held by two
      copies, let alone processed twice, or changes a done or failed row. */
  ghost predicate StaysExclusive(cfg: Config, states: seq<State>, steps: seq<Step>) {
    forall longer, more ::
      IsRun(cfg, longer, more) && Continues(states, steps, longer, more) && SparesFrom(longer, more, |steps|) ==>
      && (forall i :: 0 <= i < |longer| ==> OneHolder(longer[i]) && !ProcessedTwice(longer[i]))
      && (forall id, i, j :: 0 <= i <= j < |longer| ==> FinalKept(longer[i], longer[j], id))
  }

  ghost predicate FinalKept(s: State, t: State, id: JobId) {
    id in s.rows && QueueRuns.Final(s.rows[id]) && id in t.rows ==> t.rows[id] == s.rows[id]
  }

  lemma CarefulIsExclusive(cfg: Config, states: seq<State>, steps: seq<Step>)
    requires CarefulRun(cfg, states, steps)
    ensures forall i :: 0 <= i < |states| ==> OneHolder(states[i]) && !ProcessedTwice(states[i])
    ensures forall id, i, j :: 0 <= i <= j < |states| ==> FinalKept(states[i], states[j], id)
  {
    forall i | 0 <= i < |states| ensures OneHolder(states[i]) && !ProcessedTwice(states[i]) {
      QueueRuns.RunInv(cfg, states, steps, i);
    }
    forall id, i, j | 0 <= i <= j < |states| ensures FinalKept(states[i], states[j], id) {
      if id in states[i].rows && QueueRuns.Final(states[i].rows[id]) {
        QueueRuns.FinalStays(cfg, states, steps, id, i, j);
      }
    }
  }

  lemma SparingStaysExclusive(cfg: Config, states: seq<State>, steps: seq<Step>, longer: seq<State>, more: seq<Step>)
    requires CarefulRun(cfg, states, steps)
    requires IsRun(cfg, longer, more) && Continues(states, steps, longer, more) && SparesFrom(longer, more, |steps|)
    ensures CarefulRun(cfg, longer, more)
  {
    hide Enabled, Next, Spares;
    forall i | 0 <= i < |more| ensures Spares(longer[i], more[i]) {
      if i < |steps| {
        assert longer[i] == states[i] && more[i] == steps[i];
      }
    }
  }

  /** The exact condition over runs. Let a run end in a requeue, all requeues before it having spared
      the copies held. Then whatever happens from there - as long as later requeues spare held
      copies - no job is held or processed twice and no final row changes, if and only if this
      requeue, too, met no held copy claimed before its cutoff. */
  lemma ExclusiveIffResetSpares(cfg: Config, states: seq<State>, steps: seq<Step>)
    requires IsRun(cfg, states, steps) && steps != [] && steps[|steps| - 1].Reset?
    requires forall i :: 0 <= i < |steps| - 1 ==> Spares(states[i], steps[i])
    ensures Spares(states[|steps| - 1], steps[|steps| - 1]) <==> StaysExclusive(cfg, states, steps)
  {
    hide Enabled, Next, Spares, OneHolder, ProcessedTwice, FinalKept;
    if Spares(states[|steps| - 1], steps[|steps| - 1]) {
      assert CarefulRun(cfg, states, steps);
      forall longer, more |
        IsRun(cfg, longer, more) && Continues(states, steps, longer, more) && SparesFrom(longer, more, |steps|)
        ensures forall i :: 0 <= i < |longer| ==> OneHolder(longer[i]) && !ProcessedTwice(longer[i])
        ensures forall id, i, j :: 0 <= i <= j < |longer| ==> FinalKept(longer[i], longer[j], id)
      {
        SparingStaysExclusive(cfg, states, steps, longer, more);
        CarefulIsExclusive(cfg, longer, more);
      }
    } else {
      var longer, more := UnsparingResetDoubles(cfg, states, steps);
      assert ProcessedTwice(longer[|more|]);
    }
  }
}
