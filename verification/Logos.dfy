// Logos on top of the queue: each upload freezes its account's current logo onto the job, and a
// replaced logo file is deleted once no unfinished job needs it. Service calls are atomic here;
// worker transitions are the queue protocol's.
module Logos {
  import JobTable
  import opened Queue
  import QueueSafety
  import QueueRuns
  import opened LogoShelf

  datatype Studio = Studio(q: State, shelf: Shelf, snaps: map<JobTable.JobId, Key>)

  datatype StudioStep =
    | Protocol(st: Step, user: User)
    | SetLogo(user: User, file: Upload, sum: string, luck: Luck)
    | RemoveLogo(user: User, luck: Luck)

  function Open(now: JobTable.Time): Studio {
    Studio(Init(now), Shelf(map[], {}), map[])
  }

  predicate Unfinished(r: JobTable.Row) {
    r.status.Pending? || r.status.Processing?
  }

  /** LogoInUse: the snapshots of pending and processing rows. */
  function InUse(d: Studio): set<Key> {
    set id | id in d.q.rows && id in d.snaps && Unfinished(d.q.rows[id]) && d.snaps[id] != "" :: d.snaps[id]
  }

  ghost predicate StudioEnabled(cfg: Config, d: Studio, ds: StudioStep) {
    match ds
    case Protocol(st, user) => Enabled(cfg, d.q, st)
    case SetLogo(user, file, sum, luck) => IsUserId(user)
    case RemoveLogo(user, luck) => IsUserId(user)
  }

  function StudioNext(cfg: Config, d: Studio, ds: StudioStep): Studio {
    match ds
    case Protocol(st, user) =>
      d.(q := Next(cfg, d.q, st), snaps := if st.Insert? then d.snaps[st.id := Current(d.shelf, user)] else d.snaps)
    case SetLogo(user, file, sum, luck) => d.(shelf := AfterSetLogo(d.shelf, user, file, sum, InUse(d), luck))
    case RemoveLogo(user, luck) => d.(shelf := AfterRemoveLogo(d.shelf, user, InUse(d), luck))
  }

  ghost predicate IsStudioRun(cfg: Config, ds: seq<Studio>, steps: seq<StudioStep>) {
    && |ds| == |steps| + 1
    && ds[0] == Open(ds[0].q.now) && ds[0].q.now >= JobTable.ZERO_TIME
    && forall i :: 0 <= i < |steps| ==>
         StudioEnabled(cfg, ds[i], steps[i]) && ds[i + 1] == StudioNext(cfg, ds[i], steps[i])
  }

  /** A requeue of stuck rows takes none from a copy still held. */
  ghost predicate SparesHeld(d: Studio, ds: StudioStep) {
    ds.Protocol? ==> Spares(d.q, ds.st)
  }

  ghost predicate CarefulStudioRun(cfg: Config, ds: seq<Studio>, steps: seq<StudioStep>) {
    IsStudioRun(cfg, ds, steps) && forall i :: 0 <= i < |steps| ==> SparesHeld(ds[i], steps[i])
  }

  /** The timing hypothesis makes a studio run careful. */
  lemma TimelyStudioRunIsCareful(cfg: Config, ds: seq<Studio>, steps: seq<StudioStep>)
    requires IsStudioRun(cfg, ds, steps) && forall i :: 0 <= i < |ds| ==> Timely(cfg, ds[i].q)
    ensures CarefulStudioRun(cfg, ds, steps)
  {
    forall i | 0 <= i < |steps| ensures SparesHeld(ds[i], steps[i]) {
      if steps[i].Protocol? {
        QueueSafety.InTimeSpares(cfg, ds[i].q, steps[i].st);
      }
    }
  }

  function QueueStates(ds: seq<Studio>): seq<State> {
    seq(|ds|, i requires 0 <= i < |ds| => ds[i].q)
  }

  function QueueSteps(ds: seq<Studio>, steps: seq<StudioStep>): seq<Step>
    requires |ds| == |steps| + 1
  {
    seq(|steps|, i requires 0 <= i < |steps| => if steps[i].Protocol? then steps[i].st else Tick(ds[i].q.now))
  }

  /** Hiding the logos, a run is a run of the queue protocol. */
  lemma RefinesQueue(cfg: Config, ds: seq<Studio>, steps: seq<StudioStep>)
    requires IsStudioRun(cfg, ds, steps)
    ensures IsRun(cfg, QueueStates(ds), QueueSteps(ds, steps))
    ensures CarefulStudioRun(cfg, ds, steps) ==> CarefulRun(cfg, QueueStates(ds), QueueSteps(ds, steps))
  {
    var qs, qsteps := QueueStates(ds), QueueSteps(ds, steps);
    forall i | 0 <= i < |qsteps| ensures Enabled(cfg, qs[i], qsteps[i]) && qs[i + 1] == Next(cfg, qs[i], qsteps[i]) {
      assert StudioEnabled(cfg, ds[i], steps[i]) && ds[i + 1] == StudioNext(cfg, ds[i], steps[i]);
    }
  }

  // --- the invariant ------------------------------------------------------------------------------

  ghost predicate StudioInv(d: Studio) {
    && d.q.rows.Keys <= d.snaps.Keys && d.q.rows.Keys <= d.q.hist.Keys
    && Stocked(d.shelf, InUse(d))
  }

  /** A row is unfinished only if it was already, or is new: done and failed are never left. */
  lemma UnfinishedComesFrom(cfg: Config, s: State, st: Step, id: JobTable.JobId)
    requires QueueSafety.Inv(cfg, s) && Spares(s, st) && Enabled(cfg, s, st) && s.rows.Keys <= s.hist.Keys
    requires id in Next(cfg, s, st).rows && Unfinished(Next(cfg, s, st).rows[id])
    ensures (st.Insert? && st.id == id) || (id in s.rows && Unfinished(s.rows[id]))
  {
    if id in s.hist {
      if id !in s.rows || QueueRuns.Final(s.rows[id]) {
        QueueRuns.FinalStep(cfg, s, st, id);
      }
    } else {
      OnlyInsertAdds(cfg, s, st, id);
    }
  }

  lemma OnlyInsertAdds(cfg: Config, s: State, st: Step, id: JobTable.JobId)
    requires QueueSafety.Inv(cfg, s) && Enabled(cfg, s, st) && id !in s.rows && id in Next(cfg, s, st).rows
    ensures st.Insert? && st.id == id
  {
  }

  lemma RowsAreKnown(cfg: Config, s: State)
    requires QueueSafety.Inv(cfg, s)
    ensures s.rows.Keys <= s.hist.Keys
  {
  }

  lemma ProtocolKeepsKnown(cfg: Config, d: Studio, st: Step, user: User)
    requires StudioInv(d) && QueueSafety.Inv(cfg, d.q) && Enabled(cfg, d.q, st)
        && QueueSafety.Inv(cfg, Next(cfg, d.q, st))
    ensures var e := StudioNext(cfg, d, Protocol(st, user));
      e.q.rows.Keys <= e.snaps.Keys && e.q.rows.Keys <= e.q.hist.Keys
  {
    var e := StudioNext(cfg, d, Protocol(st, user));
    RowsAreKnown(cfg, e.q);
    forall id | id in e.q.rows ensures id in e.snaps {
      if id !in d.q.rows {
        OnlyInsertAdds(cfg, d.q, st, id);
      }
    }
  }

  lemma NeededIsStored(cfg: Config, d: Studio, st: Step, user: User, id: JobTable.JobId)
    requires StudioInv(d) && QueueSafety.Inv(cfg, d.q) && Spares(d.q, st) && Enabled(cfg, d.q, st)
    requires var e := StudioNext(cfg, d, Protocol(st, user));
      id in e.q.rows && id in e.snaps && Unfinished(e.q.rows[id]) && e.snaps[id] != ""
    ensures StudioNext(cfg, d, Protocol(st, user)).snaps[id] in d.shelf.blobs
  {
    UnfinishedComesFrom(cfg, d.q, st, id);
    hide Next, Enabled, Spares, QueueSafety.Inv;
    if !(st.Insert? && st.id == id) {
      assert d.snaps[id] in InUse(d);
    }
  }

  lemma ProtocolKeeps(cfg: Config, d: Studio, st: Step, user: User)
    requires StudioInv(d) && QueueSafety.Inv(cfg, d.q) && Spares(d.q, st) && Enabled(cfg, d.q, st)
    requires QueueSafety.Inv(cfg, Next(cfg, d.q, st))
    ensures StudioInv(StudioNext(cfg, d, Protocol(st, user)))
  {
    hide Next, Enabled, Spares, QueueSafety.Inv;
    var e := StudioNext(cfg, d, Protocol(st, user));
    ProtocolKeepsKnown(cfg, d, st, user);
    forall key | key in InUse(e) ensures key in e.shelf.blobs {
      var id :| id in e.q.rows && id in e.snaps && Unfinished(e.q.rows[id]) && e.snaps[id] == key && key != "";
      NeededIsStored(cfg, d, st, user, id);
    }
  }

  lemma StudioStepKeeps(cfg: Config, d: Studio, ds: StudioStep)
    requires StudioInv(d) && QueueSafety.Inv(cfg, d.q) && SparesHeld(d, ds) && StudioEnabled(cfg, d, ds)
    requires QueueSafety.Inv(cfg, StudioNext(cfg, d, ds).q)
    ensures StudioInv(StudioNext(cfg, d, ds))
  {
    match ds
    case Protocol(st, user) => ProtocolKeeps(cfg, d, st, user);
    case SetLogo(user, file, sum, luck) =>
      SetLogoKeeps(d.shelf, user, file, sum, InUse(d), luck);
      assert InUse(StudioNext(cfg, d, ds)) == InUse(d);
    case RemoveLogo(user, luck) =>
      RemoveLogoKeeps(d.shelf, user, InUse(d), luck);
      assert InUse(StudioNext(cfg, d, ds)) == InUse(d);
  }

  lemma {:induction false} StudioRunInv(cfg: Config, ds: seq<Studio>, steps: seq<StudioStep>, i: nat)
    requires CarefulStudioRun(cfg, ds, steps) && i < |ds|
    ensures QueueSafety.Inv(cfg, ds[i].q) && StudioInv(ds[i])
  {
    RefinesQueue(cfg, ds, steps);
    QueueRuns.RunInv(cfg, QueueStates(ds), QueueSteps(ds, steps), i);
    if i > 0 {
      StudioRunInv(cfg, ds, steps, i - 1);
      StudioStepKeeps(cfg, ds[i - 1], steps[i - 1]);
    }
  }

  /** In every reachable state of a careful run, the logo frozen onto each pending or processing
      job and the current logo of each account are in storage. */
  lemma LogosAreThere(cfg: Config, ds: seq<Studio>, steps: seq<StudioStep>, i: nat)
    requires CarefulStudioRun(cfg, ds, steps) && i < |ds|
    ensures forall id :: id in ds[i].q.rows ==>
              || ds[i].q.rows[id].status.Done? || ds[i].q.rows[id].status.Failed?
              || (id in ds[i].snaps && (ds[i].snaps[id] == "" || ds[i].snaps[id] in ds[i].shelf.blobs))
    ensures forall user :: user in ds[i].shelf.brands && ds[i].shelf.brands[user] != "" ==>
              ds[i].shelf.brands[user] in ds[i].shelf.blobs
  {
    StudioRunInv(cfg, ds, steps, i);
    forall id | id in ds[i].q.rows && Unfinished(ds[i].q.rows[id])
      ensures id in ds[i].snaps && (ds[i].snaps[id] == "" || ds[i].snaps[id] in ds[i].shelf.blobs)
    {
      assert id in ds[i].snaps;
      assert ds[i].snaps[id] != "" ==> ds[i].snaps[id] in InUse(ds[i]);
    }
  }

  lemma IssuedStays(cfg: Config, s: State, st: Step, id: JobTable.JobId)
    requires id in s.hist
    ensures id in Next(cfg, s, st).hist
  {
  }

  lemma {:induction false} SnapStays(cfg: Config, ds: seq<Studio>, steps: seq<StudioStep>, id: JobTable.JobId, i: nat,
      j: nat)
    requires IsStudioRun(cfg, ds, steps) && i <= j < |ds| && id in ds[i].q.hist && id in ds[i].snaps
    ensures id in ds[j].q.hist && id in ds[j].snaps && ds[j].snaps[id] == ds[i].snaps[id]
    decreases j
  {
    hide Next;
    if i < j {
      SnapStays(cfg, ds, steps, id, i, j - 1);
      assert StudioEnabled(cfg, ds[j - 1], steps[j - 1]) && ds[j] == StudioNext(cfg, ds[j - 1], steps[j - 1]);
      if steps[j - 1].Protocol? {
        IssuedStays(cfg, ds[j - 1].q, steps[j - 1].st, id);
      }
    }
  }

  lemma InsertIssues(cfg: Config, s: State, st: Step)
    requires st.Insert?
    ensures st.id in Next(cfg, s, st).hist
  {
  }

  /** An upload freezes the logo its account has at that moment, for good: whatever is set or removed
      later, its job keeps that one. */
  lemma LogoIsFrozen(cfg: Config, ds: seq<Studio>, steps: seq<StudioStep>, i: nat, j: nat)
    requires IsStudioRun(cfg, ds, steps) && i < j < |ds| && steps[i].Protocol? && steps[i].st.Insert?
    ensures var id, user, shelf := steps[i].st.id, steps[i].user, ds[i].shelf;
      id in ds[j].snaps && ds[j].snaps[id] == if user in shelf.brands then shelf.brands[user] else ""
  {
    assert ds[i + 1] == StudioNext(cfg, ds[i], steps[i]);
    InsertIssues(cfg, ds[i].q, steps[i].st);
    hide Next;
    SnapStays(cfg, ds, steps, steps[i].st.id, i + 1, j);
  }
}
