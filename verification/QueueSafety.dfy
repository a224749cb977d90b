// Invariants of the queue protocol and the safety theorems over whole runs.
module QueueSafety {
  import opened JobTable
  import opened Queue

  // --- what every run keeps, whatever the timing ------------------------------

  ghost predicate Domains(s: State) {
    && s.rows.Keys <= s.hist.Keys && s.creating <= s.hist.Keys && s.attached <= s.hist.Keys
    && s.creating !! s.attached
    && (forall id :: id in s.rows ==> s.rows[id].attempts == s.hist[id].claims)
  }

  ghost predicate Copies(s: State) {
    && (forall c :: c in s.held ==>
          c.job in s.hist && 1 <= c.attempt <= s.hist[c.job].claims && c.attempt !in s.hist[c.job].retried)
    && (forall c, d :: c in s.held && d in s.held && c.job == d.job && c.attempt == d.attempt ==> c == d)
  }

  ghost predicate Retried(cfg: Config, s: State) {
    forall id, a :: id in s.hist && a in s.hist[id].retried ==> 1 <= a <= cfg.maxRetries && a <= s.hist[id].claims
  }

  ghost predicate Basic(cfg: Config, s: State) {
    Domains(s) && Copies(s) && Retried(cfg, s)
  }

  lemma DomainsStep(cfg: Config, s: State, st: Step)
    requires Basic(cfg, s) && Enabled(cfg, s, st)
    ensures Domains(Next(cfg, s, st))
  {
  }

  lemma CopiesStep(cfg: Config, s: State, st: Step)
    requires Basic(cfg, s) && Enabled(cfg, s, st)
    ensures Copies(Next(cfg, s, st))
  {
  }

  lemma RetriedStep(cfg: Config, s: State, st: Step)
    requires Basic(cfg, s) && Enabled(cfg, s, st)
    ensures Retried(cfg, Next(cfg, s, st))
  {
  }

  // --- what a careful run keeps --------------------------------------------------

  /** The row belongs to this copy - or the upload was rolled back before its original existed. */
  ghost predicate Owns(s: State, c: Copy) {
    if c.job in s.rows then
      && s.rows[c.job].status.Processing?
      && s.rows[c.job].attempts == c.attempt
      && s.rows[c.job].updatedAt == c.claimedAt
    else c.job !in s.attached
  }

  ghost predicate OneHolder(s: State) {
    forall c, d :: c in s.held && d in s.held && c.job == d.job ==> c == d
  }

  ghost predicate Exclusive(s: State) {
    OneHolder(s) && forall c :: c in s.held ==> Owns(s, c)
  }

  lemma OneHolderStep(cfg: Config, s: State, st: Step)
    requires Exclusive(s) && Enabled(cfg, s, st)
    ensures OneHolder(Next(cfg, s, st))
  {
  }

  lemma ExclusiveStep(cfg: Config, s: State, st: Step)
    requires Basic(cfg, s) && Exclusive(s) && Spares(s, st) && Enabled(cfg, s, st)
    ensures Exclusive(Next(cfg, s, st))
  {
    OneHolderStep(cfg, s, st);
  }

  /** While every copy is resolved or abandoned within StuckJobTimeout of its claim, every requeue
      spares the copies held. */
  lemma InTimeSpares(cfg: Config, s: State, st: Step)
    requires Timely(cfg, s) && Enabled(cfg, s, st)
    ensures Spares(s, st)
  {
  }

  /** Where each claim came from: the upload, a retry, or a requeue of an abandoned copy. */
  ghost predicate Sourced(s: State) {
    forall id :: id in s.hist ==> SourcedAt(s, id)
  }

  predicate SourcedAt(s: State, id: JobId)
    requires id in s.hist
  {
    s.hist[id].claims + Waiting(s, id) <= 1 + |s.hist[id].retried| + s.hist[id].resets
  }

  function Waiting(s: State, id: JobId): nat {
    if id in s.rows && s.rows[id].status.Pending? then 1 else 0
  }

  ghost predicate Lost(s: State, id: JobId) {
    id in s.rows && s.rows[id].status.Processing? && forall c :: c in s.held ==> c.job != id
  }

  /** Each requeue of a stuck row answers a different abandoned copy. */
  ghost predicate ResetsPaidFor(s: State) {
    && (forall id :: id in s.hist ==> s.hist[id].resets <= s.hist[id].abandoned)
    && (forall id :: id in s.hist && Lost(s, id) ==> s.hist[id].resets < s.hist[id].abandoned)
  }

  /** A pending row carries its latest retry deadline until that deadline has passed. */
  ghost predicate Deadlines(s: State) {
    && s.now >= ZERO_TIME
    && forall id :: id in s.hist && id in s.rows ==> DeadlineAt(s, id)
  }

  predicate DeadlineAt(s: State, id: JobId)
    requires id in s.hist && id in s.rows
  {
    || s.hist[id].notBefore <= s.now
    || (s.rows[id].status.Pending? && s.hist[id].notBefore <= s.rows[id].nextAttemptAt)
  }

  ghost predicate Inv(cfg: Config, s: State) {
    Basic(cfg, s) && Exclusive(s) && Sourced(s) && ResetsPaidFor(s) && Deadlines(s)
  }

  lemma ClaimSourced(cfg: Config, s: State, st: Step, id: JobId)
    requires Enabled(cfg, s, st) && st.Claim? && id in s.hist && SourcedAt(s, id)
    ensures SourcedAt(Next(cfg, s, st), id)
  {
  }

  lemma FailSourced(cfg: Config, s: State, st: Step, id: JobId)
    requires Copies(s) && Exclusive(s) && Enabled(cfg, s, st) && st.Fail? && id in s.hist && SourcedAt(s, id)
    ensures SourcedAt(Next(cfg, s, st), id)
  {
    hide Backoff;
    assert Owns(s, st.c);
  }

  lemma ResetSourced(cfg: Config, s: State, st: Step, id: JobId)
    requires st.Reset? && id in s.hist && SourcedAt(s, id)
    ensures SourcedAt(Next(cfg, s, st), id)
  {
  }

  lemma RestSourced(cfg: Config, s: State, st: Step, id: JobId)
    requires Domains(s) && Enabled(cfg, s, st) && !(st.Claim? || st.Fail? || st.Reset?)
    requires id in Next(cfg, s, st).hist && (id in s.hist ==> SourcedAt(s, id))
    ensures SourcedAt(Next(cfg, s, st), id)
  {
  }

  lemma SourcedStep(cfg: Config, s: State, st: Step)
    requires Inv(cfg, s) && Spares(s, st) && Enabled(cfg, s, st)
    ensures Sourced(Next(cfg, s, st))
  {
    hide Enabled, SourcedAt, Domains, Copies, Retried, Exclusive, ResetsPaidFor, Deadlines;
    forall id | id in Next(cfg, s, st).hist ensures SourcedAt(Next(cfg, s, st), id) {
      if st.Claim? {
        ClaimSourced(cfg, s, st, id);
      } else if st.Fail? {
        FailSourced(cfg, s, st, id);
      } else if st.Reset? {
        ResetSourced(cfg, s, st, id);
      } else {
        RestSourced(cfg, s, st, id);
      }
    }
  }

  /** A row that a sparing requeue takes has no holder: its copy would be older than the cutoff. */
  lemma StuckIsLost(cfg: Config, s: State, cutoff: Time, id: JobId)
    requires Inv(cfg, s) && forall c :: c in s.held && c.job in s.rows ==> c.claimedAt >= cutoff
    requires id in s.rows && Stuck(s.rows[id], cutoff)
    ensures Lost(s, id)
  {
    forall c | c in s.held ensures c.job != id {
      assert Owns(s, c);
    }
  }

  lemma ResetsStep(cfg: Config, s: State, st: Step)
    requires Inv(cfg, s) && Spares(s, st) && Enabled(cfg, s, st)
    ensures ResetsPaidFor(Next(cfg, s, st))
  {
    var t := Next(cfg, s, st);
    forall id | id in t.hist
      ensures t.hist[id].resets <= t.hist[id].abandoned
      ensures Lost(t, id) ==> t.hist[id].resets < t.hist[id].abandoned
    {
      if st.Reset? && id in s.rows && Stuck(s.rows[id], st.cutoff) {
        StuckIsLost(cfg, s, st.cutoff, id);
      } else {
        OneLost(cfg, s, st, id);
      }
    }
  }

  lemma OneLost(cfg: Config, s: State, st: Step, id: JobId)
    requires Inv(cfg, s) && Enabled(cfg, s, st) && id in Next(cfg, s, st).hist
    requires st.Reset? && id in s.rows ==> !Stuck(s.rows[id], st.cutoff)
    ensures var t := Next(cfg, s, st);
      && t.hist[id].resets <= t.hist[id].abandoned
      && (Lost(t, id) ==> t.hist[id].resets < t.hist[id].abandoned)
  {
    var t := Next(cfg, s, st);
    assert st.Enqueue? ==> st.c.(stage := Queued) in t.held;
    assert st.Start? ==> st.c.(stage := Started(s.now)) in t.held;
    assert st.Claim? && id in st.ids && id in s.rows ==> Copy(id, s.rows[id].attempts + 1, st.stamp, Fetched) in t.held;
    if id in s.hist && Lost(t, id) && !Lost(s, id) && id in s.rows {
      if s.rows[id].status.Processing? {
        var c :| c in s.held && c.job == id;
        assert c !in t.held;
      }
    }
  }

  lemma FailDeadline(cfg: Config, s: State, st: Step, id: JobId)
    requires Enabled(cfg, s, st) && st.Fail? && Owns(s, st.c) && id in s.hist && id in s.rows && DeadlineAt(s, id)
    ensures DeadlineAt(Next(cfg, s, st), id)
  {
    hide Backoff;
  }

  lemma FinishDeadline(cfg: Config, s: State, st: Step, id: JobId)
    requires st.Finish? && (st.c.job in s.rows ==> Owns(s, st.c)) && id in s.hist && id in s.rows && DeadlineAt(s, id)
    ensures DeadlineAt(Next(cfg, s, st), id)
  {
  }

  /** A claim waits for the deadline, and only rows that had been claimed are requeued. */
  lemma TakenDeadline(cfg: Config, s: State, st: Step, id: JobId)
    requires Enabled(cfg, s, st) && (st.Claim? || st.Reset?) && id in s.hist && id in s.rows && DeadlineAt(s, id)
    ensures DeadlineAt(Next(cfg, s, st), id)
  {
  }

  lemma RestDeadline(cfg: Config, s: State, st: Step, id: JobId)
    requires Enabled(cfg, s, st) && !(st.Claim? || st.Reset? || st.Fail? || st.Finish?) && s.now >= ZERO_TIME
    requires id in Next(cfg, s, st).hist && id in Next(cfg, s, st).rows
    requires id in s.hist && id in s.rows ==> DeadlineAt(s, id)
    requires s.rows.Keys <= s.hist.Keys
    ensures DeadlineAt(Next(cfg, s, st), id)
  {
  }

  lemma ClockKeeps(cfg: Config, s: State, st: Step)
    requires Enabled(cfg, s, st)
    ensures Next(cfg, s, st).now >= s.now
    ensures !(st.Insert? || st.Rollback? || st.Delete?) ==> Next(cfg, s, st).rows.Keys == s.rows.Keys
  {
  }

  lemma DeadlinesStep(cfg: Config, s: State, st: Step)
    requires Inv(cfg, s) && Spares(s, st) && Enabled(cfg, s, st)
    ensures Deadlines(Next(cfg, s, st))
  {
    hide Next, DeadlineAt, Owns, Copies, Retried, Sourced, ResetsPaidFor;
    var t := Next(cfg, s, st);
    ClockKeeps(cfg, s, st);
    forall id | id in t.hist && id in t.rows ensures DeadlineAt(t, id) {
      if st.Fail? {
        FailDeadline(cfg, s, st, id);
      } else if st.Finish? {
        FinishDeadline(cfg, s, st, id);
      } else if st.Claim? || st.Reset? {
        TakenDeadline(cfg, s, st, id);
      } else {
        RestDeadline(cfg, s, st, id);
      }
    }
  }
}
