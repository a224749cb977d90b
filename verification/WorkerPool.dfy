// The pool object of internals/worker/worker.go: what the dispatcher and a processor do to
// the jobs table and the channel. Clocks, database errors, stop signals and the outcome of
// the pipeline come in as parameters.
module WorkerPool {
  import opened JobTable
  import opened JobRepository
  import Queue

  datatype Outcome = Succeeded | Errored(msg: string)

  const SECOND: Time := 1_000_000_000

  /** Config.withDefaults, for the fields the protocol reads. */
  function WithDefaults(cfg: Queue.Config, concurrency: int): (c: Queue.Config)
    ensures c.claimBatchSize >= 1 && c.retryBackoff > 0 && c.jobTimeout > 0 && c.stuckTimeout > 0
    // each sane value is kept, whatever the others are
    ensures c.maxRetries == cfg.maxRetries
    ensures cfg.claimBatchSize >= 1 ==> c.claimBatchSize == cfg.claimBatchSize
    ensures cfg.retryBackoff > 0 ==> c.retryBackoff == cfg.retryBackoff
    ensures cfg.jobTimeout > 0 ==> c.jobTimeout == cfg.jobTimeout
    ensures cfg.stuckTimeout > 0 ==> c.stuckTimeout == cfg.stuckTimeout
    // any two unset values get the same default: 30 s, 30 min, 1 h, and a batch as large as the pool
    ensures cfg.retryBackoff <= 0 ==> c.retryBackoff == 30 * 1_000_000_000
    ensures cfg.jobTimeout <= 0 ==> c.jobTimeout == 30 * 60 * 1_000_000_000
    ensures cfg.stuckTimeout <= 0 ==> c.stuckTimeout == 60 * 60 * 1_000_000_000
    ensures cfg.claimBatchSize < 1 && concurrency >= 1 ==> c.claimBatchSize == concurrency
  {
    Queue.Config(
      cfg.maxRetries,
      if cfg.retryBackoff <= 0 then 30 * SECOND else cfg.retryBackoff,
      if cfg.jobTimeout <= 0 then 1800 * SECOND else cfg.jobTimeout,
      if cfg.stuckTimeout <= 0 then 3600 * SECOND else cfg.stuckTimeout,
      if cfg.claimBatchSize >= 1 then cfg.claimBatchSize else if concurrency < 1 then 1 else concurrency)
  }

  /** The row a claim leaves behind, some time after the claim flipped it. */
  ghost predicate ClaimedRow(before: Row, after: Row, j: Job) {
    && before.status.Pending? && after.status.Processing?
    && after.attempts == before.attempts + 1 == j.attempts
    && after == before.(status := Processing, attempts := after.attempts, updatedAt := after.updatedAt)
  }

  /** after is before with exactly the given jobs claimed, each once. */
  ghost predicate ClaimedExactly(before: Table, after: Table, jobs: seq<Job>) {
    && after.Keys == before.Keys
    && (forall i, j :: 0 <= i < j < |jobs| ==> jobs[i].id != jobs[j].id)
    && (forall j :: j in jobs ==> j.id in before && ClaimedRow(before[j.id], after[j.id], j))
    && (forall id :: id in before && id !in ClaimedIds(jobs) ==> after[id] == before[id])
  }

  /** No row is ready to be claimed at this instant. */
  ghost predicate Drained(t: Table, now: Time) {
    forall id :: id in t ==> !(t[id].status.Pending? && t[id].nextAttemptAt <= now)
  }

  ghost function PendingIds(t: Table): set<JobId> {
    set id | id in t && t[id].status.Pending?
  }

  ghost function PendingCount(t: Table): nat {
    |PendingIds(t)|
  }

  lemma FewerIds(a: set<JobId>, b: set<JobId>)
    requires a < b
    ensures |a| < |b|
  {
    assert |b| == |a| + |b - a| by { assert b == a + (b - a); }
  }

  lemma NothingClaimed(t: Table)
    ensures ClaimedExactly(t, t, [])
  {
  }

  lemma ClaimedInTurn(t0: Table, t1: Table, t2: Table, a: seq<Job>, b: seq<Job>)
    requires ClaimedExactly(t0, t1, a) && ClaimedExactly(t1, t2, b)
    ensures ClaimedExactly(t0, t2, a + b)
  {
    forall j | j in a ensures j.id !in ClaimedIds(b) {
      assert ClaimedRow(t0[j.id], t1[j.id], j);
    }
    forall j | j in b ensures j.id !in ClaimedIds(a) {
      assert ClaimedRow(t1[j.id], t2[j.id], j);
    }
    assert forall id :: id in ClaimedIds(a + b) <==> id in ClaimedIds(a) || id in ClaimedIds(b) by {
      assert forall j :: j in a + b <==> j in a || j in b;
    }
  }

  lemma ClaimOfBatch(t: Table, now: Time, limit: int, batch: seq<Job>)
    requires ClaimChoice(t, {}, limit, now, ClaimedIds(batch))
    requires forall i, j :: 0 <= i < j < |batch| ==> batch[i].id != batch[j].id
    requires forall j :: j in batch ==> j.id in t && j.attempts == t[j.id].attempts + 1
    ensures var t' := JobTable.Claim(t, ClaimedIds(batch), now);
      && ClaimedExactly(t, t', batch)
      && (batch != [] ==> PendingCount(t') < PendingCount(t))
      && (|batch| < ClaimLimit(limit) ==> Drained(t', now))
  {
    var t' := JobTable.Claim(t, ClaimedIds(batch), now);
    BatchSize(batch);
    if batch != [] {
      assert batch[0].id in PendingIds(t) && batch[0].id !in PendingIds(t');
      FewerIds(PendingIds(t'), PendingIds(t));
    }
    if |batch| < ClaimLimit(limit) {
      forall id | id in t' ensures !(t'[id].status.Pending? && t'[id].nextAttemptAt <= now) {
        assert Eligible(t, {}, now, id) ==> id in ClaimedIds(batch);
      }
    }
  }

  /** No error and no stop signal anywhere in this call. */
  ghost predicate Undisturbed(claimFails: nat -> bool, stopAtClaim: nat -> bool, stopAtSend: nat -> bool) {
    forall k :: !claimFails(k) && !stopAtClaim(k) && !stopAtSend(k)
  }

  class Pool {
    const cfg: Queue.Config
    const jobs: JobRepo
    var channel: seq<Job>
    var lastReset: Time

    /** New plus the first half of Start: requeue what a previous run abandoned. */
    constructor (cfg: Queue.Config, concurrency: int, jobs: JobRepo, now: Time, stamp: Time, dbOk: bool)
      modifies jobs
      ensures this.jobs == jobs && this.cfg == WithDefaults(cfg, concurrency)
      ensures channel == [] && lastReset == now
      ensures jobs.rows ==
        if dbOk then JobTable.ResetStuck(old(jobs.rows), now - this.cfg.stuckTimeout, stamp) else old(jobs.rows)
    {
      this.cfg := WithDefaults(cfg, concurrency);
      this.jobs := jobs;
      channel := [];
      lastReset := now;
      new;
      if dbOk {
        var _ := jobs.ResetStuck(now - this.cfg.stuckTimeout, stamp);
      }
    }

    /** The head of dispatch's loop: at most one requeue per half StuckJobTimeout, and never of
        a row claimed within the last StuckJobTimeout. */
    method RequeueStuck(now: Time, again: Time, stamp: Time, dbOk: bool)
      requires now <= again <= stamp && cfg.stuckTimeout > 0
      modifies this`lastReset, jobs
      ensures lastReset == old(lastReset) || lastReset - old(lastReset) >= cfg.stuckTimeout / 2
      ensures jobs.rows == old(jobs.rows) ||
              jobs.rows == JobTable.ResetStuck(old(jobs.rows), lastReset - cfg.stuckTimeout, stamp)
      ensures now - old(lastReset) >= cfg.stuckTimeout / 2 && dbOk ==>
                jobs.rows == JobTable.ResetStuck(old(jobs.rows), again - cfg.stuckTimeout, stamp)
      ensures now - old(lastReset) < cfg.stuckTimeout / 2 ==> jobs.rows == old(jobs.rows)
      ensures forall id :: id in old(jobs.rows) && old(jobs.rows)[id].updatedAt >= stamp - cfg.stuckTimeout ==>
                jobs.rows[id] == old(jobs.rows)[id]
    {
      if cfg.stuckTimeout > 0 && now - lastReset >= cfg.stuckTimeout / 2 {
        lastReset := again;
        if dbOk {
          var _ := jobs.ResetStuck(lastReset - cfg.stuckTimeout, stamp);
        }
      }
    }

    /** Sends one batch to the channel; a stop signal seen at a send leaves the rest unsent. */
    method Feed(batch: seq<Job>, from: nat, stopAtSend: nat -> bool) returns (n: nat)
      modifies this`channel
      ensures n <= |batch| && channel == old(channel) + batch[..n]
      ensures n < |batch| ==> stopAtSend(from + n)
    {
      n := 0;
      while n < |batch|
        invariant n <= |batch| && channel == old(channel) + batch[..n]
      {
        if stopAtSend(from + n) {
          return;
        }
        channel := channel + [batch[n]];
        n := n + 1;
      }
    }

    method ClaimBatch(now: Time) returns (batch: seq<Job>)
      requires cfg.claimBatchSize >= 1
      modifies jobs
      ensures ClaimedExactly(old(jobs.rows), jobs.rows, batch)
      ensures batch != [] ==> PendingCount(jobs.rows) < PendingCount(old(jobs.rows))
      ensures |batch| < cfg.claimBatchSize ==> Drained(jobs.rows, now)
    {
      ghost var before := jobs.rows;
      batch := jobs.ClaimPending(cfg.claimBatchSize, now, {});
      ClaimOfBatch(before, now, cfg.claimBatchSize, batch);
    }

    /** One round of claimAndFeed; done when the batch was short or a stop signal came. */
    method ClaimRound(now: Time, from: nat, stopAtSend: nat -> bool)
      returns (sent: seq<Job>, dropped: seq<Job>, done: bool)
      requires cfg.claimBatchSize >= 1
      modifies this`channel, jobs
      ensures channel == old(channel) + sent
      ensures ClaimedExactly(old(jobs.rows), jobs.rows, sent + dropped)
      ensures dropped != [] ==> done && stopAtSend(from + |sent|)
      ensures !done ==> PendingCount(jobs.rows) < PendingCount(old(jobs.rows))
      ensures done && dropped == [] ==> Drained(jobs.rows, now)
    {
      var batch := ClaimBatch(now);
      label claimed:
      var n := Feed(batch, from, stopAtSend);
      sent, dropped := batch[..n], batch[n..];
      assert sent + dropped == batch;
      assert jobs.rows == old@claimed(jobs.rows);
      done := n < |batch| || |batch| < cfg.claimBatchSize;
    }

    /** claimAndFeed: every claimed job is either sent to the channel or, when stopping, dropped
        while its row stays in 'processing'; without a stop or an error it drains the table. */
    method ClaimAndFeed(clock: nat -> Time, claimFails: nat -> bool, stopAtClaim: nat -> bool, stopAtSend: nat -> bool)
      returns (sent: seq<Job>, dropped: seq<Job>, claims: nat)
      requires cfg.claimBatchSize >= 1
      modifies this`channel, jobs
      ensures channel == old(channel) + sent
      ensures ClaimedExactly(old(jobs.rows), jobs.rows, sent + dropped)
      ensures dropped != [] ==> stopAtSend(|sent|)
      ensures Undisturbed(claimFails, stopAtClaim, stopAtSend) ==>
                dropped == [] && claims >= 1 && Drained(jobs.rows, clock(claims - 1))
    {
      hide ClaimedExactly, Drained, PendingIds;
      NothingClaimed(jobs.rows);
      sent, dropped, claims := [], [], 0;
      assert sent + dropped == [];
      var done := false;
      while !done && !stopAtClaim(claims) && !claimFails(claims)
        invariant channel == old(channel) + sent
        invariant ClaimedExactly(old(jobs.rows), jobs.rows, sent + dropped)
        invariant dropped != [] ==> done && stopAtSend(|sent|)
        invariant done && dropped == [] ==> claims >= 1 && Drained(jobs.rows, clock(claims - 1))
        decreases !done, PendingCount(jobs.rows)
      {
        ghost var before := jobs.rows;
        var s, d, last := ClaimRound(clock(claims), |sent|, stopAtSend);
        claims := claims + 1;
        assert sent + dropped == sent;
        ClaimedInTurn(old(jobs.rows), before, jobs.rows, sent, s + d);
        assert sent + (s + d) == sent + s + d;
        sent, dropped, done := sent + s, d, last;
      }
    }

    /** handle, once the pipeline returned: one outcome statement on this job's row. recorded is
        false when that statement failed; the row then stays as it was. */
    method Handle(j: Job, outcome: Outcome, decided: Time, stamp: Time, recorded: bool)
      modifies jobs
      ensures jobs.rows ==
        if !recorded then old(jobs.rows)
        else if outcome.Succeeded? then JobTable.MarkDone(old(jobs.rows), j.id, stamp)
        else Queue.RecordFailure(cfg, old(jobs.rows), j.id, j.attempts, outcome.msg, decided, stamp)
      ensures !recorded || j.id !in old(jobs.rows) ==> jobs.rows == old(jobs.rows)
      ensures OnlyRow(old(jobs.rows), jobs.rows, j.id)
      ensures recorded && j.id in old(jobs.rows) && outcome.Succeeded? ==>
        jobs.rows[j.id].status == if old(jobs.rows)[j.id].status.Processing? then Done else old(jobs.rows)[j.id].status
      // an error is final exactly past MaxRetries, and otherwise retried after the doubled backoff
      ensures recorded && j.id in old(jobs.rows) && outcome.Errored? ==>
        && IsCut(outcome.msg, jobs.rows[j.id].error)
        && if j.attempts > cfg.maxRetries then
             NewOutcome(old(jobs.rows), jobs.rows, j.id, Failed, old(jobs.rows)[j.id].nextAttemptAt,
                        jobs.rows[j.id].error, stamp)
           else
             NewOutcome(old(jobs.rows), jobs.rows, j.id, Pending, decided + Queue.Backoff(cfg, j.attempts),
                        jobs.rows[j.id].error, stamp)
    {
      if outcome.Succeeded? {
        if recorded {
          jobs.MarkDone(j.id, stamp);
        }
        return;
      }
      if j.attempts > cfg.maxRetries {
        if recorded {
          jobs.MarkFailed(j.id, outcome.msg, stamp);
        }
        return;
      }
      var shift := j.attempts - 1;
      if shift < 0 {
        shift := 0;
      }
      if shift > 16 {
        shift := 16;
      }
      var backoff := Queue.Int64(cfg.retryBackoff * Queue.Pow2(shift));
      if recorded {
        jobs.MarkForRetry(j.id, outcome.msg, decided + backoff, stamp);
      }
    }
  }

  lemma {:induction false} BatchSize(batch: seq<Job>)
    requires forall i, j :: 0 <= i < j < |batch| ==> batch[i].id != batch[j].id
    ensures |ClaimedIds(batch)| == |batch|
  {
    if batch != [] {
      var n := |batch| - 1;
      BatchSize(batch[..n]);
      ClaimedSnoc(batch[..n], batch[n]);
      assert batch == batch[..n] + [batch[n]];
      assert batch[n].id !in ClaimedIds(batch[..n]);
    } else {
      assert ClaimedIds(batch) == {};
    }
  }
}
