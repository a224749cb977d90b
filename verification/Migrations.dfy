// RunMigrations of internals/database/migrations.go: forward-only migrations over any number of
// starts, each of which may fail or be cut short between any two calls.
module Migrations {
  type Id = string

  datatype Event = Started(id: Id) | Recorded(id: Id)

  /** Where one start ends early: there is no connection or schema_migrations cannot be made, the
      check of migration i fails, its Apply fails part way, its insert into schema_migrations fails,
      or the insert succeeds and the process dies. */
  datatype Fault = NoFault | NotConnected | AtTable | AtCheck(i: nat) | AtApply(i: nat) | AtRecord(i: nat)
      | AfterRecord(i: nat)

  /** What RunMigrations demands of the list: non-empty ids, no duplicates. */
  predicate ValidList(ids: seq<Id>) {
    "" !in ids && forall i, j :: 0 <= i < j < |ids| ==> ids[i] != ids[j]
  }

  /** The recorded ids, in the order they were recorded. */
  function Records(log: seq<Event>): seq<Id> {
    if log == [] then []
    else Records(log[..|log| - 1]) + (if log[|log| - 1].Recorded? then [log[|log| - 1].id] else [])
  }

  lemma RecordsSnoc(log: seq<Event>, e: Event)
    ensures Records(log + [e]) == Records(log) + (if e.Recorded? then [e.id] else [])
  {
    assert (log + [e])[..|log|] == log;
  }

  /** What one start adds to the history, from migration i on. */
  function Run(ids: seq<Id>, fault: Fault, log: seq<Event>, i: nat): seq<Event>
    requires i <= |ids|
    decreases |ids| - i
  {
    if i == |ids| || ids[i] == "" || ids[i] in ids[..i] || fault == AtCheck(i) then log
    else if ids[i] in Records(log) then Run(ids, fault, log, i + 1)
    else if fault == AtApply(i) || fault == AtRecord(i) then log + [Started(ids[i])]
    else if fault == AfterRecord(i) then log + [Started(ids[i])] + [Recorded(ids[i])]
    else Run(ids, fault, log + [Started(ids[i])] + [Recorded(ids[i])], i + 1)
  }

  predicate FailsAtOnce(fault: Fault) {
    fault.NotConnected? || fault.AtTable?
  }

  /** One whole start. */
  function Start(ids: seq<Id>, fault: Fault, log: seq<Event>): seq<Event> {
    if FailsAtOnce(fault) then log else Run(ids, fault, log, 0)
  }

  // --- what every history keeps ---------------------------------------------------------------------

  /** The k-th event is the start or the record of the first migration not recorded before it, and
      a record directly follows a start of the same migration. */
  ghost predicate Fits(ids: seq<Id>, log: seq<Event>, k: nat)
    requires k < |log|
  {
    var done := Records(log[..k]);
    && done < ids && log[k].id == ids[|done|] && log[k].id !in done
    && (log[k].Recorded? ==> k > 0 && log[k - 1] == Started(log[k].id))
  }

  ghost predicate InOrder(ids: seq<Id>, log: seq<Event>) {
    && Records(log) <= ids && ValidList(Records(log))
    && forall k :: 0 <= k < |log| ==> Fits(ids, log, k)
  }

  lemma FitsStill(ids: seq<Id>, log: seq<Event>, e: Event)
    requires forall k :: 0 <= k < |log| ==> Fits(ids, log, k)
    ensures forall k :: 0 <= k < |log| ==> Fits(ids, log + [e], k)
  {
    forall k | 0 <= k < |log| ensures Fits(ids, log + [e], k) {
      assert Fits(ids, log, k) && (log + [e])[..k] == log[..k];
    }
  }

  lemma StartKeeps(ids: seq<Id>, log: seq<Event>, i: nat)
    requires InOrder(ids, log) && i < |ids| && i == |Records(log)| && ids[i] !in ids[..i]
    ensures InOrder(ids, log + [Started(ids[i])])
  {
    assert Records(log) == ids[..i];
    FitsStill(ids, log, Started(ids[i]));
    RecordsSnoc(log, Started(ids[i]));
    assert (log + [Started(ids[i])])[..|log|] == log;
  }

  lemma RecordKeeps(ids: seq<Id>, log: seq<Event>, i: nat)
    requires InOrder(ids, log) && i < |ids| && i == |Records(log)|
    requires log != [] && log[|log| - 1] == Started(ids[i]) && ids[i] != "" && ids[i] !in ids[..i]
    ensures InOrder(ids, log + [Recorded(ids[i])]) && Records(log + [Recorded(ids[i])]) == ids[..i + 1]
  {
    assert Records(log) == ids[..i];
    FitsStill(ids, log, Recorded(ids[i]));
    RecordsSnoc(log, Recorded(ids[i]));
    assert (log + [Recorded(ids[i])])[..|log|] == log;
  }

  /** With a prefix recorded, the check says exactly whether migration i is in it. */
  lemma CheckIsByPrefix(ids: seq<Id>, done: seq<Id>, i: nat)
    requires done <= ids && i < |ids| && |done| >= i && ValidList(done) && ids[i] !in ids[..i]
    ensures ids[i] in done <==> |done| > i
  {
    if |done| > i {
      assert done[i] == ids[i];
    } else {
      assert done == ids[..i];
    }
  }

  /** Applying and recording the next migration. */
  lemma AppliedKeeps(ids: seq<Id>, log: seq<Event>, i: nat)
    requires InOrder(ids, log) && i < |ids| && i == |Records(log)| && ids[i] != "" && ids[i] !in ids[..i]
    ensures InOrder(ids, log + [Started(ids[i])])
    ensures var done := log + [Started(ids[i])] + [Recorded(ids[i])];
      InOrder(ids, done) && |Records(done)| == i + 1
  {
    var begun := log + [Started(ids[i])];
    StartKeeps(ids, log, i);
    RecordsSnoc(log, Started(ids[i]));
    hide Fits;
    RecordKeeps(ids, begun, i);
  }

  /** The start goes on to look at migration i. */
  predicate LooksAt(ids: seq<Id>, fault: Fault, i: nat)
    requires i <= |ids|
  {
    i < |ids| && ids[i] != "" && ids[i] !in ids[..i] && fault != AtCheck(i)
  }

  lemma RunStops(ids: seq<Id>, fault: Fault, log: seq<Event>, i: nat)
    requires i <= |ids| && !LooksAt(ids, fault, i)
    ensures Run(ids, fault, log, i) == log
    ensures fault.NoFault? && ValidList(ids) ==> i == |ids|
  {
  }

  lemma RunSkips(ids: seq<Id>, fault: Fault, log: seq<Event>, i: nat)
    requires i <= |ids| && LooksAt(ids, fault, i) && ids[i] in Records(log)
    ensures Run(ids, fault, log, i) == Run(ids, fault, log, i + 1)
  {
  }

  lemma RunApplies(ids: seq<Id>, fault: Fault, log: seq<Event>, i: nat)
    requires i <= |ids| && LooksAt(ids, fault, i) && ids[i] !in Records(log)
    ensures var begun := log + [Started(ids[i])];
      var done := begun + [Recorded(ids[i])];
      Run(ids, fault, log, i) ==
        if fault == AtApply(i) || fault == AtRecord(i) then begun
        else if fault == AfterRecord(i) then done else Run(ids, fault, done, i + 1)
  {
  }

  lemma AllRecorded(ids: seq<Id>, log: seq<Event>)
    requires InOrder(ids, log) && |Records(log)| >= |ids|
    ensures Records(log) == ids
  {
  }

  lemma NextUnrecorded(ids: seq<Id>, fault: Fault, log: seq<Event>, i: nat)
    requires i <= |ids| && LooksAt(ids, fault, i) && InOrder(ids, log) && |Records(log)| >= i
    ensures ids[i] in Records(log) <==> |Records(log)| > i
  {
    CheckIsByPrefix(ids, Records(log), i);
  }

  lemma LooksAtNew(ids: seq<Id>, fault: Fault, i: nat)
    requires i <= |ids| && LooksAt(ids, fault, i)
    ensures i < |ids| && ids[i] != "" && ids[i] !in ids[..i]
  {
  }

  /** One start keeps the history in order, only adds to it, and records the whole list if it is
      valid and nothing fails. */
  lemma {:induction false} RunKeeps(ids: seq<Id>, fault: Fault, log: seq<Event>, i: nat)
    requires InOrder(ids, log) && i <= |ids| && |Records(log)| >= i
    ensures InOrder(ids, Run(ids, fault, log, i))
    ensures log <= Run(ids, fault, log, i)
    ensures fault.NoFault? && ValidList(ids) ==> Records(Run(ids, fault, log, i)) == ids
    decreases |ids| - i
  {
    hide *;
    if !LooksAt(ids, fault, i) {
      RunStops(ids, fault, log, i);
      if |Records(log)| >= |ids| {
        AllRecorded(ids, log);
      }
    } else {
      LooksAtNew(ids, fault, i);
      NextUnrecorded(ids, fault, log, i);
      if ids[i] in Records(log) {
        RunSkips(ids, fault, log, i);
        RunKeeps(ids, fault, log, i + 1);
      } else {
        RunApplies(ids, fault, log, i);
        AppliedKeeps(ids, log, i);
        if fault != AtApply(i) && fault != AtRecord(i) && fault != AfterRecord(i) {
          RunKeeps(ids, fault, log + [Started(ids[i])] + [Recorded(ids[i])], i + 1);
        }
      }
    }
  }

  /** A start in which migration i fails - its Apply, or the insert after it - does not record it,
      nor anything behind it. */
  lemma {:induction false} FailedIsNotRecorded(ids: seq<Id>, fault: Fault, log: seq<Event>, i: nat, f: nat)
    requires InOrder(ids, log) && i <= f < |ids| && i <= |Records(log)| <= f && ValidList(ids)
    requires fault == AtCheck(f) || fault == AtApply(f) || fault == AtRecord(f)
    ensures Records(Run(ids, fault, log, i)) == ids[..f]
    decreases f - i
  {
    hide *;
    DistinctSoFar(ids, i);
    if fault == AtCheck(f) && i == f {
      StopsAtCheck(ids, fault, log, i);
      RecordsAre(ids, log, f);
    } else {
      LooksAtUntil(ids, fault, i, f);
      NextUnrecorded(ids, fault, log, i);
      if ids[i] in Records(log) {
        RunSkips(ids, fault, log, i);
        FailedIsNotRecorded(ids, fault, log, i + 1, f);
      } else {
        RunApplies(ids, fault, log, i);
        AppliedKeeps(ids, log, i);
        if i == f {
          RecordsSnoc(log, Started(ids[i]));
          RecordsAre(ids, log, f);
        } else {
          FailedIsNotRecorded(ids, fault, log + [Started(ids[i])] + [Recorded(ids[i])], i + 1, f);
        }
      }
    }
  }

  lemma DistinctSoFar(ids: seq<Id>, i: nat)
    requires ValidList(ids) && i < |ids|
    ensures ids[i] != "" && ids[i] !in ids[..i]
  {
    assert ids[i] in ids;
  }

  lemma StopsAtCheck(ids: seq<Id>, fault: Fault, log: seq<Event>, i: nat)
    requires i < |ids| && fault == AtCheck(i)
    ensures Run(ids, fault, log, i) == log
  {
  }

  lemma LooksAtUntil(ids: seq<Id>, fault: Fault, i: nat, f: nat)
    requires i <= f < |ids| && ids[i] != "" && ids[i] !in ids[..i]
    requires (fault == AtCheck(f) && i < f) || fault == AtApply(f) || fault == AtRecord(f)
    ensures LooksAt(ids, fault, i)
    ensures i < f ==> fault != AtApply(i) && fault != AtRecord(i) && fault != AfterRecord(i)
    ensures i == f ==> fault == AtApply(i) || fault == AtRecord(i)
  {
  }

  lemma RecordsAre(ids: seq<Id>, log: seq<Event>, n: nat)
    requires InOrder(ids, log) && |Records(log)| == n <= |ids|
    ensures Records(log) == ids[..n]
  {
  }

  lemma AppendingKeepsOrder(ids: seq<Id>, longer: seq<Id>, log: seq<Event>)
    requires InOrder(ids, log) && ids <= longer
    ensures InOrder(longer, log)
  {
    forall k | 0 <= k < |log| ensures Fits(longer, log, k) {
      assert Fits(ids, log, k);
    }
  }

  /** Starts of ever longer lists: logs[n] is the history before the n-th start. */
  ghost predicate IsHistory(lists: seq<seq<Id>>, faults: seq<Fault>, logs: seq<seq<Event>>) {
    && |logs| == |lists| + 1 == |faults| + 1 && logs[0] == []
    && (forall n :: 0 <= n < |lists| - 1 ==> lists[n] <= lists[n + 1])
    && (forall n :: 0 <= n < |lists| ==> logs[n + 1] == Start(lists[n], faults[n], logs[n]))
  }

  lemma {:induction false} OrderSoFar(lists: seq<seq<Id>>, faults: seq<Fault>, logs: seq<seq<Event>>, n: nat)
    requires IsHistory(lists, faults, logs) && n < |lists|
    ensures InOrder(lists[n], logs[n]) && InOrder(lists[n], logs[n + 1])
  {
    if n > 0 {
      OrderSoFar(lists, faults, logs, n - 1);
      AppendingKeepsOrder(lists[n - 1], lists[n], logs[n]);
    }
    RunKeeps(lists[n], faults[n], logs[n], 0);
  }

  /** Over any sequence of starts with failures and crashes, on a list that is only appended to: the
      recorded ids are a prefix of the list, no Apply starts before all earlier migrations are
      recorded, and none runs after its own record. */
  lemma ForwardOnly(lists: seq<seq<Id>>, faults: seq<Fault>, logs: seq<seq<Event>>, n: nat)
    requires IsHistory(lists, faults, logs) && n < |lists|
    ensures Records(logs[n + 1]) <= lists[n]
    ensures AlwaysNext(lists[n], logs[n + 1])
  {
    OrderSoFar(lists, faults, logs, n);
    var log := logs[n + 1];
    forall k | 0 <= k < |log| ensures ActsOnNext(lists[n], log, k) {
      assert Fits(lists[n], log, k);
    }
  }

  /** The k-th call is about the migration right after those recorded by then, and not one of them. */
  ghost predicate ActsOnNext(ids: seq<Id>, log: seq<Event>, k: nat)
    requires k < |log|
  {
    var done := Records(log[..k]);
    done < ids && log[k].id == ids[|done|] && log[k].id !in done
  }

  ghost predicate AlwaysNext(ids: seq<Id>, log: seq<Event>) {
    forall k :: 0 <= k < |log| ==> ActsOnNext(ids, log, k)
  }

  // --- the code -------------------------------------------------------------------------------------

  /** The database: schema_migrations and, as a history, the calls to Apply and the inserts. */
  class Database {
    var recorded: set<Id>
    ghost var log: seq<Event>

    constructor ()
      ensures Valid() && log == []
    {
      recorded, log := {}, [];
    }

    ghost predicate Valid()
      reads this
    {
      forall id :: id in recorded <==> id in Records(log)
    }

    method Apply(id: Id)
      requires Valid()
      modifies this`log
      ensures Valid() && log == old(log) + [Started(id)]
    {
      RecordsSnoc(log, Started(id));
      log := log + [Started(id)];
    }

    method Record(id: Id)
      requires Valid()
      modifies this
      ensures Valid() && log == old(log) + [Recorded(id)] && recorded == old(recorded) + {id}
    {
      RecordsSnoc(log, Recorded(id));
      recorded := recorded + {id};
      log := log + [Recorded(id)];
    }

    method RunMigrations(ids: seq<Id>, fault: Fault) returns (ok: bool)
      requires Valid()
      modifies this
      ensures Valid() && log == Start(ids, fault, old(log))
      ensures ok ==> ValidList(ids) && forall id :: id in ids ==> id in recorded
      ensures fault.NoFault? && ValidList(ids) ==> ok
    {
      if FailsAtOnce(fault) {
        return false;
      }
      var seen: set<Id> := {};
      for i := 0 to |ids|
        invariant Valid() && Run(ids, fault, log, i) == Run(ids, fault, old(log), 0)
        invariant forall id :: id in seen <==> id in ids[..i]
        invariant ValidList(ids[..i]) && forall id :: id in ids[..i] ==> id in recorded
      {
        assert ids[..i + 1] == ids[..i] + [ids[i]];
        if ids[i] == "" || ids[i] in seen {
          return false;
        }
        seen := seen + {ids[i]};
        if fault == AtCheck(i) {
          return false;
        }
        if ids[i] in recorded {
          continue;
        }
        Apply(ids[i]);
        if fault == AtApply(i) || fault == AtRecord(i) {
          return false;
        }
        Record(ids[i]);
        if fault == AfterRecord(i) {
          return false;
        }
      }
      assert ids[..|ids|] == ids;
      ok := true;
    }
  }
}
