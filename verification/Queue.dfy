// The job-queue protocol as interleaved atomic steps: the table statements of
// internals/app/job/repo.go, the pool of internals/worker/worker.go holding copies of
// claimed jobs (in the dispatcher's batch, in the channel, in a processor), uploads that
// insert a row before its original exists, user deletes, crashes, and a clock.
// Any number of pools and processes may be running: copies are a set.
module Queue {
  import opened Basics
  import opened JobTable

  datatype Config = Config(
    maxRetries: nat,
    retryBackoff: int,    // Duration, an int64
    jobTimeout: Time,
    stuckTimeout: Time,
    claimBatchSize: int)

  datatype Stage = Fetched | Queued | Started(at: Time)

  /** One claimed job in memory, from the claim until its outcome is recorded or it is lost. */
  datatype Copy = Copy(job: JobId, attempt: nat, claimedAt: Time, stage: Stage)

  /** What happened to one job id so far. No step's guard reads it. */
  datatype History = History(
    claims: nat,
    retried: set<nat>,    // attempts whose failure was answered with MarkForRetry
    resets: nat,          // times ResetStuck requeued the row
    abandoned: nat,       // copies dropped at shutdown, lost in a crash or whose outcome was not recorded
    notBefore: Time)      // latest retry deadline ever set

  datatype State = State(
    now: Time,
    rows: Table,
    creating: set<JobId>, // uploads in flight: row inserted, original asset not yet
    attached: set<JobId>, // ids whose original asset was inserted at some point
    held: set<Copy>,
    hist: map<JobId, History>)

  datatype Step =
    | Tick(to: Time)
    | Insert(id: JobId, stamp: Time)
    | Attach(id: JobId)
    | CreateLost(id: JobId)
    | Rollback(id: JobId)
    | Claim(ids: set<JobId>, locked: set<JobId>, stamp: Time)
    | Enqueue(c: Copy)
    | Start(c: Copy)
    | Abandon(c: Copy)
    | Finish(c: Copy, stamp: Time)
    | Fail(c: Copy, msg: string, decided: Time, stamp: Time)
    | Reset(cutoff: Time, stamp: Time)
    | Delete(id: JobId)

  // --- the retry delay -------------------------------------------------------

  function Pow2(n: nat): nat {
    if n == 0 then 1 else 2 * Pow2(n - 1)
  }

  /** Two's complement int64, the width of time.Duration. */
  function Int64(x: int): int {
    (x + 0x8000_0000_0000_0000) % 0x1_0000_0000_0000_0000 - 0x8000_0000_0000_0000
  }

  function Shift(attempt: nat): nat {
    if attempt < 1 then 0 else if attempt - 1 > 16 then 16 else attempt - 1
  }

  function Backoff(cfg: Config, attempt: nat): int {
    Int64(cfg.retryBackoff * Pow2(Shift(attempt)))
  }

  // --- the steps -------------------------------------------------------------

  function Init(now: Time): State {
    State(now, map[], {}, {}, {}, map[])
  }

  ghost predicate Enabled(cfg: Config, s: State, st: Step) {
    match st
    case Tick(to) => s.now <= to
    case Insert(id, stamp) => id !in s.hist && stamp <= s.now
    case Attach(id) => id in s.creating && id in s.rows
    case CreateLost(id) => id in s.creating
    case Rollback(id) => id in s.creating
    case Claim(ids, locked, stamp) => stamp <= s.now && ClaimChoice(s.rows, locked, cfg.claimBatchSize, stamp, ids)
    case Enqueue(c) => c in s.held && c.stage.Fetched?
    case Start(c) => c in s.held && c.stage.Queued?
    case Abandon(c) => c in s.held
    case Finish(c, stamp) => c in s.held && c.stage.Started? && c.stage.at <= stamp <= s.now
    case Fail(c, msg, decided, stamp) => c in s.held && c.stage.Started? && c.stage.at <= decided <= stamp <= s.now
    case Reset(cutoff, stamp) => cutoff <= stamp - cfg.stuckTimeout && stamp <= s.now
    case Delete(id) => true
  }

  predicate Retries(cfg: Config, attempt: nat) {
    attempt <= cfg.maxRetries
  }

  function ClaimedCopies(rows: Table, ids: set<JobId>, stamp: Time): set<Copy> {
    set id | id in ids && id in rows :: Copy(id, rows[id].attempts + 1, stamp, Fetched)
  }

  /** handle: a failed attempt is final past MaxRetries, otherwise requeued with a delay. */
  function RecordFailure(cfg: Config, rows: Table, id: JobId, attempt: nat, msg: string, decided: Time,
      stamp: Time): Table {
    if Retries(cfg, attempt) then JobTable.MarkForRetry(rows, id, msg, decided + Backoff(cfg, attempt), stamp)
    else JobTable.MarkFailed(rows, id, msg, stamp)
  }

  function Next(cfg: Config, s: State, st: Step): State {
    match st
    case Tick(to) => s.(now := to)
    case Insert(id, stamp) =>
      s.(rows := JobTable.Insert(s.rows, id, stamp), creating := s.creating + {id},
         hist := s.hist[id := History(0, {}, 0, 0, ZERO_TIME)])
    case Attach(id) => s.(creating := s.creating - {id}, attached := s.attached + {id})
    case CreateLost(id) => s.(creating := s.creating - {id})
    case Rollback(id) => s.(creating := s.creating - {id}, rows := s.rows - {id})
    case Claim(ids, locked, stamp) =>
      s.(rows := JobTable.Claim(s.rows, ids, stamp),
         held := s.held + ClaimedCopies(s.rows, ids, stamp),
         hist := map id | id in s.hist ::
           if id in ids then s.hist[id].(claims := s.hist[id].claims + 1) else s.hist[id])
    case Enqueue(c) => s.(held := s.held - {c} + {c.(stage := Queued)})
    case Start(c) => s.(held := s.held - {c} + {c.(stage := Started(s.now))})
    case Abandon(c) =>
      s.(held := s.held - {c},
         hist := map id | id in s.hist ::
           if id == c.job then s.hist[id].(abandoned := s.hist[id].abandoned + 1) else s.hist[id])
    case Finish(c, stamp) =>
      s.(held := s.held - {c}, rows := JobTable.MarkDone(s.rows, c.job, stamp))
    case Fail(c, msg, decided, stamp) =>
      s.(held := s.held - {c},
         rows := RecordFailure(cfg, s.rows, c.job, c.attempt, msg, decided, stamp),
         hist := map id | id in s.hist ::
           if id == c.job && Retries(cfg, c.attempt) then
             s.hist[id].(retried := s.hist[id].retried + {c.attempt},
                         notBefore := Max(s.hist[id].notBefore, decided + Backoff(cfg, c.attempt)))
           else s.hist[id])
    case Reset(cutoff, stamp) =>
      s.(rows := JobTable.ResetStuck(s.rows, cutoff, stamp),
         hist := map id | id in s.hist ::
           if id in s.rows && Stuck(s.rows[id], cutoff) then s.hist[id].(resets := s.hist[id].resets + 1)
           else s.hist[id])
    case Delete(id) => s.(rows := JobTable.DeleteIfNotProcessing(s.rows, id))
  }

  /** states[0] is initial and each state follows the one before by the step between them. */
  ghost predicate IsRun(cfg: Config, states: seq<State>, steps: seq<Step>) {
    && |states| == |steps| + 1
    && states[0] == Init(states[0].now)
    && states[0].now >= ZERO_TIME
    && forall i :: 0 <= i < |steps| ==>
         Enabled(cfg, states[i], steps[i]) && states[i + 1] == Next(cfg, states[i], steps[i])
  }

  /** A requeue of stuck rows meets no copy still held whose claim is older than its cutoff. */
  ghost predicate Spares(s: State, st: Step) {
    st.Reset? ==> forall c :: c in s.held && c.job in s.rows ==> c.claimedAt >= st.cutoff
  }

  /** A run in which every requeue spares the copies held at that moment. */
  ghost predicate CarefulRun(cfg: Config, states: seq<State>, steps: seq<Step>) {
    IsRun(cfg, states, steps) && forall i :: 0 <= i < |steps| ==> Spares(states[i], steps[i])
  }

  /** Every copy held now was claimed at most StuckJobTimeout ago. */
  ghost predicate Timely(cfg: Config, s: State) {
    forall c :: c in s.held ==> s.now <= c.claimedAt + cfg.stuckTimeout
  }

  ghost predicate TimelyRun(cfg: Config, states: seq<State>, steps: seq<Step>) {
    IsRun(cfg, states, steps) && forall i :: 0 <= i < |states| ==> Timely(cfg, states[i])
  }
}
