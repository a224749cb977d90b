// The jobs table and the worker-facing statements of internals/app/job/repo.go.
// Each SQL statement is one atomic function on the table; JobRepository is the
// object whose methods run those statements.
module JobTable {

  type JobId = string

  /** Instants; the zero time.Time is 0 and every clock reading is at least 0. */
  type Time = int

  const ZERO_TIME: Time := 0

  /** maxErrLen: the stored failure message is cut to this many bytes. */
  const MAX_ERR_LEN := 1000

  datatype Status = Pending | Processing | Done | Failed

  datatype Row = Row(
    status: Status,
    attempts: nat,
    nextAttemptAt: Time,
    createdAt: Time,
    updatedAt: Time,
    error: string)

  /** What ClaimPending hands to the pool: the id and the attempt number it was claimed under. */
  datatype Job = Job(id: JobId, attempts: nat)

  type Table = map<JobId, Row>

  function Truncate(s: string, n: nat): string {
    if |s| <= n then s else s[..n]
  }

  // --- the statements, as functions on the table ---------------------------

  function Insert(t: Table, id: JobId, now: Time): Table {
    t[id := Row(Pending, 0, ZERO_TIME, now, now, "")]
  }

  predicate Eligible(t: Table, locked: set<JobId>, now: Time, id: JobId) {
    id in t && id !in locked && t[id].status.Pending? && t[id].nextAttemptAt <= now
  }

  function ClaimLimit(limit: int): nat {
    if limit < 1 then 1 else limit
  }

  /** ids is a possible result of the claim's inner SELECT: the oldest eligible rows another
      transaction has not locked, at most the limit, and all of them when there are fewer. */
  ghost predicate ClaimChoice(t: Table, locked: set<JobId>, limit: int, now: Time, ids: set<JobId>) {
    && (forall id :: id in ids ==> Eligible(t, locked, now, id))
    && |ids| <= ClaimLimit(limit)
    && (|ids| < ClaimLimit(limit) ==> forall id :: Eligible(t, locked, now, id) ==> id in ids)
    && (forall a, b :: a in ids && Eligible(t, locked, now, b) && b !in ids ==> t[a].createdAt <= t[b].createdAt)
  }

  function Claim(t: Table, ids: set<JobId>, now: Time): Table {
    map id | id in t ::
      if id in ids then t[id].(status := Processing, attempts := t[id].attempts + 1, updatedAt := now)
      else t[id]
  }

  function MarkDone(t: Table, id: JobId, now: Time): Table {
    if id in t && t[id].status.Processing? then t[id := t[id].(status := Done, updatedAt := now)] else t
  }

  function MarkFailed(t: Table, id: JobId, msg: string, now: Time): Table {
    if id in t then
      t[id := t[id].(status := Failed, error := Truncate(msg, MAX_ERR_LEN), updatedAt := now)]
    else t
  }

  function MarkForRetry(t: Table, id: JobId, msg: string, next: Time, now: Time): Table {
    if id in t then
      t[id := t[id].(status := Pending, error := Truncate(msg, MAX_ERR_LEN), nextAttemptAt := next, updatedAt := now)]
    else t
  }

  predicate Stuck(row: Row, cutoff: Time) {
    row.status.Processing? && row.updatedAt < cutoff
  }

  function ResetStuck(t: Table, cutoff: Time, now: Time): Table {
    map id | id in t ::
      if Stuck(t[id], cutoff) then t[id].(status := Pending, nextAttemptAt := ZERO_TIME, updatedAt := now)
      else t[id]
  }

  function DeleteIfNotProcessing(t: Table, id: JobId): Table {
    if id in t && !t[id].status.Processing? then t - {id} else t
  }

  // --- what a statement leaves alone ---------------------------------------

  /** At most row id differs. */
  ghost predicate OnlyRow(before: Table, after: Table, id: JobId) {
    after.Keys == before.Keys && forall x :: x in before && x != id ==> after[x] == before[x]
  }

  /** Row id may differ in its outcome: status, failure message, retry deadline and time stamp. */
  ghost predicate NewOutcome(before: Table, after: Table, id: JobId, status: Status, next: Time, error: string,
      now: Time) {
    && OnlyRow(before, after, id)
    && (id in before ==>
          && after[id].status == status && after[id].nextAttemptAt == next && after[id].error == error
          && after[id].updatedAt == now
          && after[id].attempts == before[id].attempts && after[id].createdAt == before[id].createdAt)
  }

  /** The first 1000 bytes of a message. */
  ghost predicate IsCut(msg: string, cut: string) {
    cut <= msg && |cut| == if |msg| <= 1000 then |msg| else 1000
  }

  function ClaimedIds(claimed: seq<Job>): set<JobId> {
    set j | j in claimed :: j.id
  }

  lemma ClaimedSnoc(claimed: seq<Job>, j: Job)
    ensures ClaimedIds(claimed + [j]) == ClaimedIds(claimed) + {j.id}
  {
    assert forall k :: k in claimed + [j] <==> k in claimed || k == j;
    assert j in claimed + [j];
  }
}
