// The theorems about whole runs of the queue protocol.
module QueueRuns {
  import opened JobTable
  import opened Queue
  import opened QueueSafety

  // --- invariants along a run ---------------------------------------------------

  lemma {:induction false} RunBasic(cfg: Config, states: seq<State>, steps: seq<Step>, i: nat)
    requires IsRun(cfg, states, steps) && i < |states|
    ensures Basic(cfg, states[i])
  {
    if i > 0 {
      RunBasic(cfg, states, steps, i - 1);
      DomainsStep(cfg, states[i - 1], steps[i - 1]);
      CopiesStep(cfg, states[i - 1], steps[i - 1]);
      RetriedStep(cfg, states[i - 1], steps[i - 1]);
    }
  }

  lemma {:induction false} RunInv(cfg: Config, states: seq<State>, steps: seq<Step>, i: nat)
    requires CarefulRun(cfg, states, steps) && i < |states|
    ensures Inv(cfg, states[i])
  {
    RunBasic(cfg, states, steps, i);
    if i > 0 {
      RunInv(cfg, states, steps, i - 1);
      var s, st := states[i - 1], steps[i - 1];
      ExclusiveStep(cfg, s, st);
      SourcedStep(cfg, s, st);
      ResetsStep(cfg, s, st);
      DeadlinesStep(cfg, s, st);
    }
  }

  // --- exclusivity ----------------------------------------------------------------

  /** In a careful run no job is held by two copies, and a held copy's row is in 'processing'
      under that copy's attempt number (or was rolled back before it had an original). */
  lemma NoJobHeldTwice(cfg: Config, states: seq<State>, steps: seq<Step>, i: nat)
    requires CarefulRun(cfg, states, steps) && i < |states|
    ensures forall c, d :: c in states[i].held && d in states[i].held && c.job == d.job ==> c == d
    ensures forall c :: c in states[i].held && c.job in states[i].rows ==>
              states[i].rows[c.job].status.Processing? && states[i].rows[c.job].attempts == c.attempt
    ensures forall c :: c in states[i].held && c.job !in states[i].rows ==> c.job !in states[i].attached
  {
    RunInv(cfg, states, steps, i);
  }

  ghost predicate Final(row: Row) {
    row.status.Done? || row.status.Failed?
  }

  lemma FinalStep(cfg: Config, s: State, st: Step, id: JobId)
    requires Inv(cfg, s) && Spares(s, st) && Enabled(cfg, s, st) && id in s.hist
    requires id in s.rows ==> Final(s.rows[id])
    ensures id in s.rows && id in Next(cfg, s, st).rows ==> Next(cfg, s, st).rows[id] == s.rows[id]
    ensures id !in s.rows ==> id !in Next(cfg, s, st).rows
  {
  }

  /** In a careful run a done or failed row never changes again until it is deleted. */
  lemma {:induction false} FinalStays(cfg: Config, states: seq<State>, steps: seq<Step>, id: JobId, i: nat, j: nat)
    requires CarefulRun(cfg, states, steps) && i <= j < |states|
    requires id in states[i].rows && Final(states[i].rows[id])
    ensures id !in states[j].rows || states[j].rows[id] == states[i].rows[id]
    decreases j
  {
    if i < j {
      FinalStays(cfg, states, steps, id, i, j - 1);
      RunInv(cfg, states, steps, i);
      RunInv(cfg, states, steps, j - 1);
      HistKept(cfg, states, steps, id, i, j - 1);
      FinalStep(cfg, states[j - 1], steps[j - 1], id);
    }
  }

  /** An id once issued stays issued, so a deleted row's id never comes back. */
  lemma {:induction false} HistKept(cfg: Config, states: seq<State>, steps: seq<Step>, id: JobId, i: nat, j: nat)
    requires IsRun(cfg, states, steps) && i <= j < |states|
    requires id in states[i].hist
    ensures id in states[j].hist
    ensures states[j].hist[id].notBefore >= states[i].hist[id].notBefore
    decreases j
  {
    if i < j {
      HistKept(cfg, states, steps, id, i, j - 1);
    }
  }

  // --- counting steps ---------------------------------------------------------------

  function Count(steps: seq<Step>, n: nat, p: Step -> bool): nat
    requires n <= |steps|
  {
    if n == 0 then 0 else Count(steps, n - 1, p) + (if p(steps[n - 1]) then 1 else 0)
  }

  function Claims(id: JobId): Step -> bool {
    (st: Step) => st.Claim? && id in st.ids
  }

  function Reschedules(cfg: Config, id: JobId): Step -> bool {
    (st: Step) => st.Fail? && st.c.job == id && Retries(cfg, st.c.attempt)
  }

  function Abandons(id: JobId): Step -> bool {
    (st: Step) => st.Abandon? && st.c.job == id
  }

  function Outcomes(id: JobId): Step -> bool {
    (st: Step) => (st.Finish? || st.Fail?) && st.c.job == id
  }

  function CopiesOf(s: State, id: JobId): set<Copy> {
    set c | c in s.held && c.job == id
  }

  function One(b: bool): nat {
    if b then 1 else 0
  }

  lemma HistoryStep(cfg: Config, s: State, st: Step, id: JobId)
    requires Basic(cfg, s) && Enabled(cfg, s, st) && id in s.hist
    ensures id in Next(cfg, s, st).hist
    ensures var h, h' := s.hist[id], Next(cfg, s, st).hist[id];
      && h'.claims == h.claims + One(Claims(id)(st))
      && |h'.retried| == |h.retried| + One(Reschedules(cfg, id)(st))
      && h'.abandoned == h.abandoned + One(Abandons(id)(st))
  {
  }

  /** An id that a step issues starts with an empty history, and the step was none of these. */
  lemma HistoryStarts(cfg: Config, s: State, st: Step, id: JobId)
    requires Basic(cfg, s) && Enabled(cfg, s, st) && id !in s.hist
    ensures !Claims(id)(st) && !Reschedules(cfg, id)(st) && !Abandons(id)(st) && !Outcomes(id)(st)
    ensures id in Next(cfg, s, st).hist ==> Next(cfg, s, st).hist[id] == History(0, {}, 0, 0, ZERO_TIME)
  {
  }

  lemma {:induction false} CountsAreHistory(cfg: Config, states: seq<State>, steps: seq<Step>, id: JobId, i: nat)
    requires IsRun(cfg, states, steps) && i <= |steps| && id in states[i].hist
    ensures Count(steps, i, Claims(id)) == states[i].hist[id].claims
    ensures Count(steps, i, Reschedules(cfg, id)) == |states[i].hist[id].retried|
    ensures Count(steps, i, Abandons(id)) == states[i].hist[id].abandoned
  {
    hide Next, Enabled, Basic, Claims, Reschedules, Abandons;
    if i > 0 {
      RunBasic(cfg, states, steps, i - 1);
      if id in states[i - 1].hist {
        CountsAreHistory(cfg, states, steps, id, i - 1);
        HistoryStep(cfg, states[i - 1], steps[i - 1], id);
      } else {
        NothingBeforeInsert(cfg, states, steps, id, i - 1);
        HistoryStarts(cfg, states[i - 1], steps[i - 1], id);
      }
    }
  }

  lemma HistGrows(cfg: Config, s: State, st: Step)
    ensures s.hist.Keys <= Next(cfg, s, st).hist.Keys
  {
  }

  lemma {:induction false} NothingBeforeInsert(cfg: Config, states: seq<State>, steps: seq<Step>, id: JobId, i: nat)
    requires IsRun(cfg, states, steps) && i <= |steps| && id !in states[i].hist
    ensures Count(steps, i, Claims(id)) == 0
    ensures Count(steps, i, Reschedules(cfg, id)) == 0
    ensures Count(steps, i, Abandons(id)) == 0
    ensures Count(steps, i, Outcomes(id)) == 0
  {
    if i > 0 {
      RunBasic(cfg, states, steps, i - 1);
      hide Basic, Enabled;
      HistGrows(cfg, states[i - 1], steps[i - 1]);
      NothingBeforeInsert(cfg, states, steps, id, i - 1);
      hide Next, Claims, Reschedules, Abandons, Outcomes;
      HistoryStarts(cfg, states[i - 1], steps[i - 1], id);
    }
  }

  // --- every claim has exactly one fate --------------------------------------------

  lemma NoCopiesYet(cfg: Config, s: State, id: JobId)
    requires Basic(cfg, s) && id !in s.hist
    ensures CopiesOf(s, id) == {}
  {
  }

  lemma CopiesOfStep(cfg: Config, s: State, st: Step, id: JobId)
    requires Basic(cfg, s) && Enabled(cfg, s, st)
    ensures |CopiesOf(Next(cfg, s, st), id)| + One(Outcomes(id)(st)) + One(Abandons(id)(st))
            == |CopiesOf(s, id)| + One(Claims(id)(st))
  {
    var t := Next(cfg, s, st);
    match st
    case Claim(ids, _, stamp) => ClaimAddsOne(cfg, s, st, id);
    case Enqueue(c) => MovedCopy(s, t, c, c.(stage := Queued), id);
    case Start(c) => MovedCopy(s, t, c, c.(stage := Started(s.now)), id);
    case Abandon(c) => DroppedCopy(s, t, c, id);
    case Finish(c, _) => DroppedCopy(s, t, c, id);
    case Fail(c, _, _, _) => DroppedCopy(s, t, c, id);
    case _ => assert t.held == s.held;
  }

  lemma ClaimAddsOne(cfg: Config, s: State, st: Step, id: JobId)
    requires Basic(cfg, s) && Enabled(cfg, s, st) && st.Claim?
    ensures |CopiesOf(Next(cfg, s, st), id)| == |CopiesOf(s, id)| + One(id in st.ids)
  {
    var t := Next(cfg, s, st);
    if id in st.ids {
      var c := Copy(id, s.rows[id].attempts + 1, st.stamp, Fetched);
      assert CopiesOf(t, id) == CopiesOf(s, id) + {c};
    } else {
      assert CopiesOf(t, id) == CopiesOf(s, id);
    }
  }

  lemma DroppedCopy(s: State, t: State, c: Copy, id: JobId)
    requires c in s.held && t.held == s.held - {c}
    ensures |CopiesOf(t, id)| + One(c.job == id) == |CopiesOf(s, id)|
  {
    if c.job == id {
      assert CopiesOf(t, id) == CopiesOf(s, id) - {c};
    } else {
      assert CopiesOf(t, id) == CopiesOf(s, id);
    }
  }

  lemma MovedCopy(s: State, t: State, c: Copy, d: Copy, id: JobId)
    requires c in s.held && d !in s.held && c.job == d.job && t.held == s.held - {c} + {d}
    ensures |CopiesOf(t, id)| == |CopiesOf(s, id)|
  {
    if c.job == id {
      assert CopiesOf(t, id) == CopiesOf(s, id) - {c} + {d};
    } else {
      assert CopiesOf(t, id) == CopiesOf(s, id);
    }
  }

  /** In every run, each claim of a job is by now recorded once as an outcome, abandoned once,
      or still held: nothing is processed twice for one claim and no claim vanishes. */
  lemma {:induction false} EveryClaimHasOneFate(cfg: Config, states: seq<State>, steps: seq<Step>, id: JobId, i: nat)
    requires IsRun(cfg, states, steps) && i <= |steps|
    ensures Count(steps, i, Claims(id))
            == Count(steps, i, Outcomes(id)) + Count(steps, i, Abandons(id)) + |CopiesOf(states[i], id)|
  {
    hide Next, Enabled, Basic, CopiesOf, Claims, Outcomes, Abandons;
    RunBasic(cfg, states, steps, i);
    if id !in states[i].hist {
      NothingBeforeInsert(cfg, states, steps, id, i);
      NoCopiesYet(cfg, states[i], id);
    } else if i > 0 {
      RunBasic(cfg, states, steps, i - 1);
      EveryClaimHasOneFate(cfg, states, steps, id, i - 1);
      CopiesOfStep(cfg, states[i - 1], steps[i - 1], id);
    }
  }

  // --- bounds -------------------------------------------------------------------------

  lemma {:induction false} SmallSet(a: set<nat>, n: nat)
    requires forall x :: x in a ==> 1 <= x <= n
    ensures |a| <= n
  {
    if n > 0 {
      SmallSet(a - {n}, n - 1);
    } else {
      assert a == {};
    }
  }

  /** In every run, whatever the timing, a job is rescheduled at most MaxRetries times. */
  lemma RescheduledAtMostMaxRetries(cfg: Config, states: seq<State>, steps: seq<Step>, id: JobId)
    requires IsRun(cfg, states, steps)
    ensures Count(steps, |steps|, Reschedules(cfg, id)) <= cfg.maxRetries
  {
    RunBasic(cfg, states, steps, |steps|);
    if id in states[|steps|].hist {
      CountsAreHistory(cfg, states, steps, id, |steps|);
      SmallSet(states[|steps|].hist[id].retried, cfg.maxRetries);
    } else {
      NothingBeforeInsert(cfg, states, steps, id, |steps|);
    }
  }

  /** In a careful run a job is claimed at most MaxRetries + 1 times, plus once per abandoned copy. */
  lemma ClaimsAreBounded(cfg: Config, states: seq<State>, steps: seq<Step>, id: JobId)
    requires CarefulRun(cfg, states, steps)
    ensures Count(steps, |steps|, Claims(id)) <= cfg.maxRetries + 1 + Count(steps, |steps|, Abandons(id))
  {
    var n := |steps|;
    RunInv(cfg, states, steps, n);
    if id in states[n].hist {
      CountsAreHistory(cfg, states, steps, id, n);
      SmallSet(states[n].hist[id].retried, cfg.maxRetries);
    } else {
      NothingBeforeInsert(cfg, states, steps, id, n);
    }
  }

  // --- failing for good ---------------------------------------------------------------

  ghost predicate FailedAreSpent(cfg: Config, s: State) {
    forall id :: id in s.rows && s.rows[id].status.Failed? ==> s.rows[id].attempts > cfg.maxRetries
  }

  /** A recorded error leaves its row failed exactly past MaxRetries, and otherwise pending. */
  lemma FailureIsFinalIff(cfg: Config, s: State, st: Step)
    requires Enabled(cfg, s, st) && st.Fail? && st.c.job in s.rows
    ensures var row := Next(cfg, s, st).rows[st.c.job];
      (row.status.Failed? <==> st.c.attempt > cfg.maxRetries)
          && (row.status.Pending? <==> st.c.attempt <= cfg.maxRetries)
  {
  }

  lemma SpentStep(cfg: Config, s: State, st: Step)
    requires Basic(cfg, s) && FailedAreSpent(cfg, s) && Enabled(cfg, s, st)
    ensures FailedAreSpent(cfg, Next(cfg, s, st))
  {
    hide Backoff, Copies;
    if st.Fail? {
      assert st.c.attempt <= s.hist[st.c.job].claims by { AttemptIsClaimed(s, st.c); }
    }
  }

  lemma AttemptIsClaimed(s: State, c: Copy)
    requires Copies(s) && c in s.held
    ensures c.job in s.hist && c.attempt <= s.hist[c.job].claims
  {
  }

  lemma {:induction false} FailedAreSpentSoFar(cfg: Config, states: seq<State>, steps: seq<Step>, i: nat)
    requires IsRun(cfg, states, steps) && i < |states|
    ensures FailedAreSpent(cfg, states[i])
  {
    if i > 0 {
      FailedAreSpentSoFar(cfg, states, steps, i - 1);
      RunBasic(cfg, states, steps, i - 1);
      hide FailedAreSpent, Basic, Next, Enabled;
      SpentStep(cfg, states[i - 1], steps[i - 1]);
    }
  }

  /** In every run a job fails for good only after more than MaxRetries attempts; in a careful run it
      has then had at most one more than MaxRetries, not counting those whose copy was abandoned. */
  lemma FailedOnlyWhenSpent(cfg: Config, states: seq<State>, steps: seq<Step>, id: JobId)
    requires IsRun(cfg, states, steps)
    requires id in states[|steps|].rows && states[|steps|].rows[id].status.Failed?
    ensures states[|steps|].rows[id].attempts > cfg.maxRetries
    ensures CarefulRun(cfg, states, steps) ==>
      states[|steps|].rows[id].attempts <= cfg.maxRetries + 1 + Count(steps, |steps|, Abandons(id))
  {
    FailedAreSpentSoFar(cfg, states, steps, |steps|);
    RunBasic(cfg, states, steps, |steps|);
    if CarefulRun(cfg, states, steps) {
      ClaimsAreBounded(cfg, states, steps, id);
      CountsAreHistory(cfg, states, steps, id, |steps|);
    }
  }

  /** In a careful run a job that failed and was requeued is not claimed again before the moment
      of that failure plus its backoff. */
  lemma BackoffIsRespected(cfg: Config, states: seq<State>, steps: seq<Step>, i: nat, j: nat)
    requires CarefulRun(cfg, states, steps) && i < j < |steps|
    requires steps[i].Fail? && Retries(cfg, steps[i].c.attempt)
    requires steps[j].Claim? && steps[i].c.job in steps[j].ids
    ensures states[j].now >= steps[i].decided + Backoff(cfg, steps[i].c.attempt)
  {
    var id := steps[i].c.job;
    RunInv(cfg, states, steps, i);
    RunInv(cfg, states, steps, j);
    HistKept(cfg, states, steps, id, i + 1, j);
  }

  lemma {:induction false} Pow2Grows(m: nat, n: nat)
    requires m <= n
    ensures 1 <= Pow2(m) <= Pow2(n)
  {
    if m < n {
      Pow2Grows(m, n - 1);
    } else if m > 0 {
      Pow2Grows(m - 1, n - 1);
    }
  }

  /** The delay is base * 2^min(attempt-1, 16) exactly when that product fits a Duration. */
  lemma BackoffDoubles(cfg: Config, attempt: nat)
    requires attempt >= 1
    ensures var exact := cfg.retryBackoff * Pow2(if attempt - 1 > 16 then 16 else attempt - 1);
      Backoff(cfg, attempt) == exact <==> -0x8000_0000_0000_0000 <= exact < 0x8000_0000_0000_0000
  {
  }

  /** A base delay under 2^47 ns (about 39 hours) never wraps, however many attempts. */
  lemma BackoffNeverWraps(cfg: Config, attempt: nat)
    requires attempt >= 1 && 0 <= cfg.retryBackoff < 0x8000_0000_0000
    ensures Backoff(cfg, attempt) == cfg.retryBackoff * Pow2(if attempt - 1 > 16 then 16 else attempt - 1)
  {
    var p := Pow2(Shift(attempt));
    assert p <= 0x1_0000 by {
      Pow2Grows(Shift(attempt), 16);
      assert Pow2(4) == 16;
      assert Pow2(8) == 256 by { assert Pow2(6) == 64; }
      assert Pow2(12) == 4096 by { assert Pow2(10) == 1024; }
      assert Pow2(16) == 0x1_0000 by { assert Pow2(14) == 16384; }
    }
    assert 0 <= cfg.retryBackoff * p < 0x8000_0000_0000_0000;
  }

  // --- runs that meet the timing hypothesis ---------------------------------------------

  /** A run in which every copy is resolved or abandoned within StuckJobTimeout of its claim is
      careful, so everything above holds of it. */
  lemma TimelyRunIsCareful(cfg: Config, states: seq<State>, steps: seq<Step>)
    requires TimelyRun(cfg, states, steps)
    ensures CarefulRun(cfg, states, steps)
  {
    forall i | 0 <= i < |steps| ensures Spares(states[i], steps[i]) {
      InTimeSpares(cfg, states[i], steps[i]);
    }
  }

  /** The timely form: within StuckJobTimeout no job is held twice and a done or failed row is
      never left again. */
  lemma TimelyRunsAreExclusive(cfg: Config, states: seq<State>, steps: seq<Step>, i: nat, j: nat)
    requires TimelyRun(cfg, states, steps) && i <= j < |states|
    ensures forall c, d :: c in states[j].held && d in states[j].held && c.job == d.job ==> c == d
    ensures forall id :: id in states[i].rows && Final(states[i].rows[id]) && id in states[j].rows ==>
              states[j].rows[id] == states[i].rows[id]
  {
    TimelyRunIsCareful(cfg, states, steps);
    NoJobHeldTwice(cfg, states, steps, j);
    forall id | id in states[i].rows && Final(states[i].rows[id]) && id in states[j].rows
      ensures states[j].rows[id] == states[i].rows[id]
    {
      FinalStays(cfg, states, steps, id, i, j);
    }
  }
}
