// internals/app/job/repo.go: the job repository, proved against the statements of JobTable.
module JobRepository {
  import opened JobTable

  class JobRepo {
    var rows: Table

    constructor ()
      ensures rows == map[]
    {
      rows := map[];
    }

    method Create(id: JobId, now: Time)
      modifies this
      ensures rows == Insert(old(rows), id, now)
      ensures rows.Keys == old(rows).Keys + {id} && forall x :: x in old(rows) && x != id ==> rows[x] == old(rows)[x]
      ensures rows[id].status.Pending? && rows[id].attempts == 0 && rows[id].nextAttemptAt == 0
      ensures rows[id].createdAt == rows[id].updatedAt == now
    {
      rows := rows[id := Row(Pending, 0, ZERO_TIME, now, now, "")];
    }

    /** One UPDATE ... RETURNING. The rows come back in no promised order. */
    method ClaimPending(limit: int, now: Time, locked: set<JobId>) returns (claimed: seq<Job>)
      modifies this
      ensures forall i, j :: 0 <= i < j < |claimed| ==> claimed[i].id != claimed[j].id
      ensures ClaimChoice(old(rows), locked, limit, now, ClaimedIds(claimed))
      ensures rows == JobTable.Claim(old(rows), ClaimedIds(claimed), now)
      ensures rows.Keys == old(rows).Keys
      ensures forall x :: x in rows ==>
        if x in ClaimedIds(claimed) then
          && old(rows)[x].status.Pending? && old(rows)[x].nextAttemptAt <= now && x !in locked
          && rows[x].status.Processing? && rows[x].attempts == old(rows)[x].attempts + 1 && rows[x].updatedAt == now
          && rows[x].createdAt == old(rows)[x].createdAt && rows[x].nextAttemptAt == old(rows)[x].nextAttemptAt
        else rows[x] == old(rows)[x]
      ensures forall j :: j in claimed ==> j.id in rows && j.attempts == rows[j.id].attempts
    {
      var ids := SelectOldest(limit, now, locked);
      rows := map id | id in rows ::
        if id in ids then rows[id].(status := Processing, attempts := rows[id].attempts + 1, updatedAt := now)
        else rows[id];
      claimed := Returning(ids);
    }

    /** The inner SELECT ... ORDER BY created_at LIMIT ? FOR UPDATE SKIP LOCKED. */
    method SelectOldest(limit: int, now: Time, locked: set<JobId>) returns (ids: set<JobId>)
      ensures ClaimChoice(rows, locked, limit, now, ids)
      // only rows that are due and that nobody else has locked; at most the limit, or one
      ensures forall id :: id in ids ==>
        id in rows && id !in locked && rows[id].status.Pending? && rows[id].nextAttemptAt <= now
      ensures |ids| <= if limit < 1 then 1 else limit
      // a row that is due and free is left out only for older ones that fill the limit
      ensures forall b ::
        b in rows && b !in locked && rows[b].status.Pending? && rows[b].nextAttemptAt <= now && b !in ids ==>
          |ids| == (if limit < 1 then 1 else limit) && forall a :: a in ids ==> rows[a].createdAt <= rows[b].createdAt
    {
      var left := set id | id in rows && Eligible(rows, locked, now, id);
      ids := {};
      while left != {} && |ids| < ClaimLimit(limit)
        invariant |ids| <= ClaimLimit(limit)
        invariant forall id :: Eligible(rows, locked, now, id) <==> id in left || id in ids
        invariant left !! ids
        invariant forall a, b :: a in ids && b in left ==> rows[a].createdAt <= rows[b].createdAt
        decreases left
      {
        var id := Oldest(left);
        ids := ids + {id};
        left := left - {id};
      }
    }

    method Returning(ids: set<JobId>) returns (claimed: seq<Job>)
      requires ids <= rows.Keys
      ensures ClaimedIds(claimed) == ids
      ensures forall i, j :: 0 <= i < j < |claimed| ==> claimed[i].id != claimed[j].id
      ensures forall j :: j in claimed ==> j.id in rows && j.attempts == rows[j.id].attempts
    {
      var left := ids;
      claimed := [];
      while left != {}
        invariant left <= ids
        invariant ClaimedIds(claimed) == ids - left
        invariant forall i :: 0 <= i < |claimed| ==> claimed[i].id in ids && claimed[i].id !in left
        invariant forall i, j :: 0 <= i < j < |claimed| ==> claimed[i].id != claimed[j].id
        invariant forall j :: j in claimed ==> j.id in rows && j.attempts == rows[j.id].attempts
        decreases left
      {
        var id :| id in left;
        ClaimedSnoc(claimed, Job(id, rows[id].attempts));
        claimed := claimed + [Job(id, rows[id].attempts)];
        left := left - {id};
      }
    }

    method Oldest(ids: set<JobId>) returns (id: JobId)
      requires ids != {} && ids <= rows.Keys
      ensures id in ids
      ensures forall b :: b in ids ==> rows[id].createdAt <= rows[b].createdAt
    {
      id :| id in ids;
      var rest := ids - {id};
      while rest != {}
        invariant rest <= ids && id in ids
        invariant forall b :: b in ids && b !in rest ==> rows[id].createdAt <= rows[b].createdAt
        decreases rest
      {
        var c :| c in rest;
        if rows[c].createdAt < rows[id].createdAt { id := c; }
        rest := rest - {c};
      }
    }

    method MarkDone(id: JobId, now: Time)
      modifies this
      ensures rows == JobTable.MarkDone(old(rows), id, now)
      ensures if id in old(rows) && old(rows)[id].status.Processing? then
                NewOutcome(old(rows), rows, id, Done, old(rows)[id].nextAttemptAt, old(rows)[id].error, now)
              else rows == old(rows)
    {
      if id in rows && rows[id].status.Processing? {
        rows := rows[id := rows[id].(status := Done, updatedAt := now)];
      }
    }

    method MarkFailed(id: JobId, msg: string, now: Time)
      modifies this
      ensures rows == JobTable.MarkFailed(old(rows), id, msg, now)
      ensures id in rows ==> IsCut(msg, rows[id].error)
      ensures id in rows ==>
        NewOutcome(old(rows), rows, id, Failed, old(rows)[id].nextAttemptAt, rows[id].error, now)
      ensures id !in old(rows) ==> rows == old(rows)
    {
      if id in rows {
        rows := rows[id := rows[id].(status := Failed, error := Truncate(msg, MAX_ERR_LEN), updatedAt := now)];
      }
    }

    method MarkForRetry(id: JobId, msg: string, next: Time, now: Time)
      modifies this
      ensures rows == JobTable.MarkForRetry(old(rows), id, msg, next, now)
      ensures id in rows ==> IsCut(msg, rows[id].error)
      ensures id in rows ==> NewOutcome(old(rows), rows, id, Pending, next, rows[id].error, now)
      ensures id !in old(rows) ==> rows == old(rows)
    {
      if id in rows {
        rows := rows[id := rows[id].(
          status := Pending, error := Truncate(msg, MAX_ERR_LEN), nextAttemptAt := next, updatedAt := now)];
      }
    }

    /** One UPDATE over every row left in 'processing' since before cutoff; returns how many. */
    method ResetStuck(cutoff: Time, now: Time) returns (n: nat)
      modifies this
      ensures rows == JobTable.ResetStuck(old(rows), cutoff, now)
      ensures rows.Keys == old(rows).Keys
      ensures forall x :: x in rows ==>
        if old(rows)[x].status.Processing? && old(rows)[x].updatedAt < cutoff then
          && rows[x].status.Pending? && rows[x].nextAttemptAt == 0 && rows[x].updatedAt == now
          && rows[x].attempts == old(rows)[x].attempts && rows[x].createdAt == old(rows)[x].createdAt
        else rows[x] == old(rows)[x]
      ensures n == |set id | id in old(rows) && Stuck(old(rows)[id], cutoff)|
    {
      n := |set id | id in rows && Stuck(rows[id], cutoff)|;
      rows := map id | id in rows ::
        if Stuck(rows[id], cutoff) then rows[id].(status := Pending, nextAttemptAt := ZERO_TIME, updatedAt := now)
        else rows[id];
    }

    method DeleteIfNotProcessing(id: JobId) returns (deleted: bool)
      modifies this
      ensures rows == JobTable.DeleteIfNotProcessing(old(rows), id)
      ensures rows == if deleted then old(rows) - {id} else old(rows)
      ensures deleted == (id in old(rows) && !old(rows)[id].status.Processing?)
    {
      deleted := id in rows && !rows[id].status.Processing?;
      if deleted {
        rows := rows - {id};
      }
    }
  }
}
