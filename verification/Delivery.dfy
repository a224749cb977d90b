// Previews on top of the queue: process in internals/worker/worker.go and process.go reads the
// original, looks for an existing preview row, then creates or overwrites it
// (internals/app/asset/repo.go, UpsertPreview), as separate database calls that interleave with
// everything else. Deleting a job row cascades to its asset rows.
module Delivery {
  import opened Basics
  import JobTable
  import opened Queue
  import QueueSafety
  import QueueRuns
  import opened Share
  import Base64Url
  import Tokens

  datatype Found = Nothing | Existing(id: AssetId)
  datatype Progress = Loaded | Looked(found: Found) | Recorded(id: AssetId)

  datatype Desk = Desk(
    q: State,
    assets: map<AssetId, Asset>,
    issued: set<AssetId>,             // every asset id ever handed out; UUIDs do not repeat
    progress: map<Copy, Progress>,    // where process stands, for each running copy
    disabled: set<JobId>)

  datatype DeskStep =
    | Protocol(st: Step, newId: AssetId)
    | Load(c: Copy)
    | Look(c: Copy, found: Found)
    | Record(c: Copy, newId: AssetId)
    | SwitchLinks(id: JobId, off: bool)

  function Open(now: JobTable.Time): Desk {
    Desk(Init(now), map[], {}, map[], {})
  }

  predicate IsPreviewOf(d: Desk, a: AssetId, job: JobId) {
    a in d.assets && d.assets[a] == Asset(job, Preview)
  }

  predicate IsOriginalOf(d: Desk, a: AssetId, job: JobId) {
    a in d.assets && d.assets[a] == Asset(job, Original)
  }

  predicate Fresh(d: Desk, a: AssetId) {
    a !in d.issued && ValidId(a)
  }

  ghost predicate DeskEnabled(cfg: Config, d: Desk, ds: DeskStep) {
    match ds
    case Protocol(st, newId) =>
      && Enabled(cfg, d.q, st)
      && (st.Attach? ==> Fresh(d, newId))
      && (st.Finish? ==> st.c in d.progress && d.progress[st.c].Recorded?)
    case Load(c) =>
      c in d.q.held && c.stage.Started? && c !in d.progress && exists a :: IsOriginalOf(d, a, c.job)
    case Look(c, found) =>
      && c in d.q.held && c in d.progress && d.progress[c].Loaded?
      && (match found
          case Nothing => forall a :: !IsPreviewOf(d, a, c.job)
          case Existing(a) => IsPreviewOf(d, a, c.job))
    case Record(c, newId) =>
      && c in d.q.held && c in d.progress && d.progress[c].Looked?
      && (match d.progress[c].found
          case Nothing => Fresh(d, newId) && c.job in d.q.rows
          case Existing(a) => a in d.assets)
    case SwitchLinks(id, off) => id in d.q.rows
  }

  /** The desk after a queue step: new assets in, assets of deleted rows and progress of
      resolved copies out. */
  function Carry(d: Desk, q: State, added: map<AssetId, Asset>): Desk {
    var assets := d.assets + added;
    d.(q := q,
       assets := map a | a in assets && assets[a].job in q.rows :: assets[a],
       issued := d.issued + added.Keys,
       progress := map c | c in d.progress && c in q.held :: d.progress[c])
  }

  function DeskNext(cfg: Config, d: Desk, ds: DeskStep): Desk {
    match ds
    case Protocol(st, newId) =>
      Carry(d, Next(cfg, d.q, st), if st.Attach? then map[newId := Asset(st.id, Original)] else map[])
    case Load(c) => d.(progress := d.progress[c := Loaded])
    case Look(c, found) => d.(progress := d.progress[c := Looked(found)])
    case Record(c, newId) =>
      if c in d.progress && d.progress[c].Looked? && d.progress[c].found.Existing? then
        var a := d.progress[c].found.id;
        d.(assets := d.assets[a := Asset(c.job, Preview)], progress := d.progress[c := Recorded(a)])
      else
        d.(assets := d.assets[newId := Asset(c.job, Preview)], issued := d.issued + {newId},
           progress := d.progress[c := Recorded(newId)])
    case SwitchLinks(id, off) => d.(disabled := if off then d.disabled + {id} else d.disabled - {id})
  }

  ghost predicate IsDeskRun(cfg: Config, ds: seq<Desk>, steps: seq<DeskStep>) {
    && |ds| == |steps| + 1
    && ds[0] == Open(ds[0].q.now) && ds[0].q.now >= JobTable.ZERO_TIME
    && forall i :: 0 <= i < |steps| ==>
         DeskEnabled(cfg, ds[i], steps[i]) && ds[i + 1] == DeskNext(cfg, ds[i], steps[i])
  }

  /** A requeue of stuck rows takes none from a copy still held. */
  ghost predicate SparesHeld(d: Desk, ds: DeskStep) {
    ds.Protocol? ==> Spares(d.q, ds.st)
  }

  ghost predicate CarefulDeskRun(cfg: Config, ds: seq<Desk>, steps: seq<DeskStep>) {
    IsDeskRun(cfg, ds, steps) && forall i :: 0 <= i < |steps| ==> SparesHeld(ds[i], steps[i])
  }

  /** The timing hypothesis makes a desk run careful. */
  lemma TimelyDeskRunIsCareful(cfg: Config, ds: seq<Desk>, steps: seq<DeskStep>)
    requires IsDeskRun(cfg, ds, steps) && forall i :: 0 <= i < |ds| ==> Timely(cfg, ds[i].q)
    ensures CarefulDeskRun(cfg, ds, steps)
  {
    forall i | 0 <= i < |steps| ensures SparesHeld(ds[i], steps[i]) {
      if steps[i].Protocol? {
        QueueSafety.InTimeSpares(cfg, ds[i].q, steps[i].st);
      }
    }
  }

  // --- projection to the queue protocol ------------------------------------------------

  function QueueStep(d: Desk, ds: DeskStep): Step {
    if ds.Protocol? then ds.st else Tick(d.q.now)
  }

  function QueueStates(ds: seq<Desk>): seq<State> {
    seq(|ds|, i requires 0 <= i < |ds| => ds[i].q)
  }

  function QueueSteps(ds: seq<Desk>, steps: seq<DeskStep>): seq<Step>
    requires |ds| == |steps| + 1
  {
    seq(|steps|, i requires 0 <= i < |steps| => QueueStep(ds[i], steps[i]))
  }

  /** Hiding the assets, a run is a run of the queue protocol. */
  lemma RefinesQueue(cfg: Config, ds: seq<Desk>, steps: seq<DeskStep>)
    requires IsDeskRun(cfg, ds, steps)
    ensures IsRun(cfg, QueueStates(ds), QueueSteps(ds, steps))
    ensures CarefulDeskRun(cfg, ds, steps) ==> CarefulRun(cfg, QueueStates(ds), QueueSteps(ds, steps))
  {
    var qs, qsteps := QueueStates(ds), QueueSteps(ds, steps);
    forall i | 0 <= i < |qsteps| ensures Enabled(cfg, qs[i], qsteps[i]) && qs[i + 1] == Next(cfg, qs[i], qsteps[i]) {
      assert DeskEnabled(cfg, ds[i], steps[i]) && ds[i + 1] == DeskNext(cfg, ds[i], steps[i]);
    }
  }

  // --- invariants ------------------------------------------------------------------------

  ghost predicate Tables(d: Desk) {
    && (forall a :: a in d.assets ==> a in d.issued && d.assets[a].job in d.q.rows && ValidId(a))
    && (forall a :: a in d.assets && d.assets[a].kind.Original? ==> d.assets[a].job in d.q.attached)
    && d.progress.Keys <= d.q.held
    && (forall c :: c in d.progress ==> c.job in d.q.attached)
  }

  ghost predicate OnePreview(d: Desk) {
    forall a, b :: a in d.assets && b in d.assets && d.assets[a].kind.Preview? && d.assets[a] == d.assets[b] ==> a == b
  }

  /** What a running copy has read or written is still so. */
  ghost predicate StillTrue(d: Desk, job: JobId, p: Progress) {
    match p
    case Loaded => true
    case Looked(Nothing) => forall a :: !IsPreviewOf(d, a, job)
    case Looked(Existing(a)) => IsPreviewOf(d, a, job)
    case Recorded(a) => IsPreviewOf(d, a, job)
  }

  ghost predicate ReadsHold(d: Desk) {
    forall c :: c in d.progress ==> StillTrue(d, c.job, d.progress[c])
  }

  ghost predicate DoneHasPreview(d: Desk) {
    forall id :: id in d.q.rows && d.q.rows[id].status.Done? ==> exists a :: IsPreviewOf(d, a, id)
  }

  ghost predicate DeskInv(d: Desk) {
    Tables(d) && OnePreview(d) && ReadsHold(d) && DoneHasPreview(d)
  }

  ghost predicate Ready(cfg: Config, d: Desk, ds: DeskStep) {
    && QueueSafety.Inv(cfg, d.q) && DeskInv(d)
    && DeskEnabled(cfg, d, ds)
    && QueueSafety.Inv(cfg, DeskNext(cfg, d, ds).q)
  }

  // What the desk needs to know about one queue step.

  predicate KeepsAttached(s: State, t: State) {
    s.attached <= t.attached
  }

  ghost predicate NewRowsUnattached(s: State, t: State) {
    forall id :: id in t.rows && id !in s.rows ==> id !in s.attached
  }

  ghost predicate DoneOnlyBy(s: State, t: State, finished: set<JobId>) {
    forall id :: id in t.rows && t.rows[id].status.Done? ==> id in finished || (id in s.rows && s.rows[id].status.Done?)
  }

  ghost predicate HeldAreProcessing(t: State) {
    forall c :: c in t.held && c.job in t.attached ==> c.job in t.rows && t.rows[c.job].status.Processing?
  }

  ghost predicate QueueMoved(s: State, t: State, finished: set<JobId>) {
    && KeepsAttached(s, t) && NewRowsUnattached(s, t) && DoneOnlyBy(s, t, finished)
    && HeldAreProcessing(t) && QueueSafety.OneHolder(t)
  }

  function Finished(st: Step): set<JobId> {
    if st.Finish? then {st.c.job} else {}
  }

  lemma AttachedAreKept(cfg: Config, s: State, st: Step)
    requires Enabled(cfg, s, st)
    ensures KeepsAttached(s, Next(cfg, s, st))
  {
  }

  lemma NewRowsAreNew(cfg: Config, s: State, st: Step)
    requires QueueSafety.Basic(cfg, s) && Enabled(cfg, s, st)
    ensures NewRowsUnattached(s, Next(cfg, s, st))
  {
    hide QueueSafety.Copies, QueueSafety.Retried;
  }

  lemma DoneByFinish(cfg: Config, s: State, st: Step)
    requires Enabled(cfg, s, st)
    ensures DoneOnlyBy(s, Next(cfg, s, st), Finished(st))
  {
  }

  lemma OwnersAreProcessing(t: State)
    requires QueueSafety.Exclusive(t)
    ensures HeldAreProcessing(t)
  {
    forall c | c in t.held && c.job in t.attached ensures c.job in t.rows && t.rows[c.job].status.Processing? {
      assert QueueSafety.Owns(t, c);
    }
  }

  lemma HowQueueMoved(cfg: Config, s: State, st: Step)
    requires QueueSafety.Inv(cfg, s) && Enabled(cfg, s, st) && QueueSafety.Inv(cfg, Next(cfg, s, st))
    ensures QueueMoved(s, Next(cfg, s, st), Finished(st))
  {
    hide Enabled, Next, KeepsAttached, NewRowsUnattached, DoneOnlyBy, HeldAreProcessing, QueueSafety.Basic;
    AttachedAreKept(cfg, s, st);
    NewRowsAreNew(cfg, s, st);
    DoneByFinish(cfg, s, st);
    OwnersAreProcessing(Next(cfg, s, st));
  }

  /** What a step may add: originals of attached jobs under fresh ids. */
  ghost predicate AddsOriginals(d: Desk, q: State, added: map<AssetId, Asset>) {
    forall a :: a in added ==> a !in d.issued && ValidId(a) && added[a].kind.Original? && added[a].job in q.attached
  }

  lemma CarriedQueue(d: Desk, q: State, added: map<AssetId, Asset>)
    ensures Carry(d, q, added).q == q
  {
  }

  lemma CarriedPreviews(d: Desk, q: State, added: map<AssetId, Asset>, a: AssetId, job: JobId)
    requires Tables(d) && AddsOriginals(d, q, added) && job in q.rows
    ensures IsPreviewOf(Carry(d, q, added), a, job) <==> IsPreviewOf(d, a, job)
  {
  }

  lemma CarryKeepsTables(d: Desk, q: State, added: map<AssetId, Asset>)
    requires Tables(d) && AddsOriginals(d, q, added) && KeepsAttached(d.q, q)
    ensures Tables(Carry(d, q, added))
  {
  }

  lemma CarryKeepsOnePreview(d: Desk, q: State, added: map<AssetId, Asset>)
    requires Tables(d) && OnePreview(d) && AddsOriginals(d, q, added)
    ensures OnePreview(Carry(d, q, added))
  {
    var e := Carry(d, q, added);
    forall a, b | a in e.assets && b in e.assets && e.assets[a].kind.Preview? && e.assets[a] == e.assets[b]
      ensures a == b
    {
      assert a in d.assets && b in d.assets;
    }
  }

  lemma CarryKeepsReads(d: Desk, q: State, added: map<AssetId, Asset>, c: Copy)
    requires Tables(d) && ReadsHold(d) && AddsOriginals(d, q, added) && KeepsAttached(d.q, q) && HeldAreProcessing(q)
    requires c in Carry(d, q, added).progress
    ensures StillTrue(Carry(d, q, added), c.job, d.progress[c])
  {
    assert StillTrue(d, c.job, d.progress[c]);
    forall a ensures IsPreviewOf(Carry(d, q, added), a, c.job) <==> IsPreviewOf(d, a, c.job) {
      CarriedPreviews(d, q, added, a, c.job);
    }
  }

  lemma CarryKeepsDone(d: Desk, q: State, added: map<AssetId, Asset>, finished: set<JobId>, id: JobId)
    requires Tables(d) && DoneHasPreview(d) && AddsOriginals(d, q, added) && DoneOnlyBy(d.q, q, finished)
    requires id in finished ==> exists a :: IsPreviewOf(d, a, id)
    requires id in q.rows && q.rows[id].status.Done?
    ensures exists a :: IsPreviewOf(Carry(d, q, added), a, id)
  {
    var a :| IsPreviewOf(d, a, id);
    CarriedPreviews(d, q, added, a, id);
  }

  /** A queue step keeps the desk's invariants. */
  lemma CarryKeeps(d: Desk, q: State, added: map<AssetId, Asset>, finished: set<JobId>)
    requires DeskInv(d) && QueueMoved(d.q, q, finished) && AddsOriginals(d, q, added)
    requires forall id :: id in finished ==> exists a :: IsPreviewOf(d, a, id)
    ensures DeskInv(Carry(d, q, added))
  {
    hide Tables, OnePreview, StillTrue, IsPreviewOf, AddsOriginals, KeepsAttached, HeldAreProcessing, DoneOnlyBy;
    CarryKeepsTables(d, q, added);
    CarryKeepsOnePreview(d, q, added);
    var e := Carry(d, q, added);
    forall c | c in e.progress ensures StillTrue(e, c.job, e.progress[c]) {
      CarryKeepsReads(d, q, added, c);
    }
    forall id | id in q.rows && q.rows[id].status.Done? ensures exists a :: IsPreviewOf(e, a, id) {
      CarryKeepsDone(d, q, added, finished, id);
    }
  }

  /** Writing the one preview row of the job a running copy owns keeps them. */
  lemma PutKeeps(d: Desk, e: Desk, c: Copy, mine: AssetId)
    requires DeskInv(d) && c in d.progress && c.job in d.q.rows && ValidId(mine)
    requires forall x :: x in d.progress && x.job == c.job ==> x == c
    requires forall a :: IsPreviewOf(d, a, c.job) ==> a == mine
    requires mine in d.assets ==> IsPreviewOf(d, mine, c.job)
    requires e.q == d.q && e.assets == d.assets[mine := Asset(c.job, Preview)]
    requires e.issued == d.issued + {mine} && e.progress == d.progress[c := Recorded(mine)]
    ensures DeskInv(e)
  {
    assert forall a, job :: IsPreviewOf(e, a, job) <==> IsPreviewOf(d, a, job) || (a == mine && job == c.job);
    forall x | x in e.progress ensures StillTrue(e, x.job, e.progress[x]) {
      assert x == c || StillTrue(d, x.job, d.progress[x]);
    }
    forall a, b | a in e.assets && b in e.assets && e.assets[a].kind.Preview? && e.assets[a] == e.assets[b]
      ensures a == b
    {
      assert IsPreviewOf(e, a, e.assets[a].job) && IsPreviewOf(e, b, e.assets[a].job);
    }
    forall id | id in e.q.rows && e.q.rows[id].status.Done? ensures exists a :: IsPreviewOf(e, a, id) {
      var a :| IsPreviewOf(d, a, id);
      assert IsPreviewOf(e, a, id);
    }
  }

  lemma RecordKeeps(cfg: Config, d: Desk, c: Copy, newId: AssetId)
    requires QueueSafety.Exclusive(d.q) && DeskInv(d) && DeskEnabled(cfg, d, Record(c, newId))
    ensures DeskInv(DeskNext(cfg, d, Record(c, newId)))
  {
    assert QueueSafety.Owns(d.q, c);
    assert StillTrue(d, c.job, d.progress[c]);
    var mine := if d.progress[c].found.Existing? then d.progress[c].found.id else newId;
    forall a | IsPreviewOf(d, a, c.job) ensures a == mine {
      assert d.progress[c].found.Existing?;
    }
    var e := DeskNext(cfg, d, Record(c, newId));
    assert d.progress[c].found.Existing? ==> d.issued + {mine} == d.issued;
    PutKeeps(d, e, c, mine);
  }

  function Added(st: Step, newId: AssetId): map<AssetId, Asset> {
    if st.Attach? then map[newId := Asset(st.id, Original)] else map[]
  }

  lemma AttachAddsOriginal(cfg: Config, d: Desk, st: Step, newId: AssetId)
    requires DeskEnabled(cfg, d, Protocol(st, newId))
    ensures AddsOriginals(d, Next(cfg, d.q, st), Added(st, newId))
  {
    hide Enabled;
  }

  lemma FinishedHavePreviews(cfg: Config, d: Desk, st: Step, newId: AssetId)
    requires ReadsHold(d) && DeskEnabled(cfg, d, Protocol(st, newId))
    ensures forall id :: id in Finished(st) ==> exists a :: IsPreviewOf(d, a, id)
  {
    hide Enabled, IsPreviewOf;
    if st.Finish? {
      assert StillTrue(d, st.c.job, d.progress[st.c]);
    }
  }

  lemma ProtocolKeeps(cfg: Config, d: Desk, st: Step, newId: AssetId)
    requires Ready(cfg, d, Protocol(st, newId))
    ensures DeskInv(DeskNext(cfg, d, Protocol(st, newId)))
  {
    CarriedQueue(d, Next(cfg, d.q, st), Added(st, newId));
    hide Next, Enabled, QueueSafety.Inv, QueueMoved, Tables, OnePreview, ReadsHold, DoneHasPreview, Carry;
    HowQueueMoved(cfg, d.q, st);
    AttachAddsOriginal(cfg, d, st, newId);
    FinishedHavePreviews(cfg, d, st, newId);
    CarryKeeps(d, Next(cfg, d.q, st), Added(st, newId), Finished(st));
  }

  lemma DeskStepKeeps(cfg: Config, d: Desk, ds: DeskStep)
    requires Ready(cfg, d, ds)
    ensures DeskInv(DeskNext(cfg, d, ds))
  {
    hide DeskEnabled, DeskNext, DeskInv;
    match ds
    case Protocol(st, newId) => ProtocolKeeps(cfg, d, st, newId);
    case Load(c) => LoadKeeps(cfg, d, c);
    case Look(c, found) => LookKeeps(cfg, d, c, found);
    case Record(c, newId) => RecordKeeps(cfg, d, c, newId);
    case SwitchLinks(id, off) => SwitchKeeps(cfg, d, id, off);
  }

  lemma LoadKeeps(cfg: Config, d: Desk, c: Copy)
    requires DeskInv(d) && DeskEnabled(cfg, d, Load(c))
    ensures DeskInv(DeskNext(cfg, d, Load(c)))
  {
    ProgressKeeps(d, DeskNext(cfg, d, Load(c)), c, Loaded);
  }

  lemma LookKeeps(cfg: Config, d: Desk, c: Copy, found: Found)
    requires DeskInv(d) && DeskEnabled(cfg, d, Look(c, found))
    ensures DeskInv(DeskNext(cfg, d, Look(c, found)))
  {
    ProgressKeeps(d, DeskNext(cfg, d, Look(c, found)), c, Looked(found));
  }

  /** A copy gets on with what it has just read; no table changes. */
  lemma ProgressKeeps(d: Desk, e: Desk, c: Copy, p: Progress)
    requires DeskInv(d) && c in d.q.held && c.job in d.q.attached && StillTrue(d, c.job, p)
    requires e == d.(progress := d.progress[c := p])
    ensures DeskInv(e)
  {
    assert forall a, job :: IsPreviewOf(e, a, job) <==> IsPreviewOf(d, a, job);
    forall x | x in e.progress ensures StillTrue(e, x.job, e.progress[x]) {
      assert x == c || StillTrue(d, x.job, d.progress[x]);
    }
  }

  lemma SwitchKeeps(cfg: Config, d: Desk, id: JobId, off: bool)
    requires DeskInv(d)
    ensures DeskInv(DeskNext(cfg, d, SwitchLinks(id, off)))
  {
    var e := DeskNext(cfg, d, SwitchLinks(id, off));
    assert forall a, job :: IsPreviewOf(e, a, job) <==> IsPreviewOf(d, a, job);
    forall x | x in e.progress ensures StillTrue(e, x.job, e.progress[x]) {
      assert StillTrue(d, x.job, d.progress[x]);
    }
  }

  lemma {:induction false} DeskRunInv(cfg: Config, ds: seq<Desk>, steps: seq<DeskStep>, i: nat)
    requires CarefulDeskRun(cfg, ds, steps) && i < |ds|
    ensures QueueSafety.Inv(cfg, ds[i].q) && DeskInv(ds[i])
  {
    RefinesQueue(cfg, ds, steps);
    QueueRuns.RunInv(cfg, QueueStates(ds), QueueSteps(ds, steps), i);
    if i > 0 {
      DeskRunInv(cfg, ds, steps, i - 1);
      DeskStepKeeps(cfg, ds[i - 1], steps[i - 1]);
    }
  }

  // --- theorems -----------------------------------------------------------------------------

  /** In a careful run every job has at most one preview row, and a done job has exactly one. */
  lemma OnePreviewPerJob(cfg: Config, ds: seq<Desk>, steps: seq<DeskStep>, i: nat)
    requires CarefulDeskRun(cfg, ds, steps) && i < |ds|
    ensures forall a, b, job :: IsPreviewOf(ds[i], a, job) && IsPreviewOf(ds[i], b, job) ==> a == b
    ensures forall id :: id in ds[i].q.rows && ds[i].q.rows[id].status.Done? ==> exists a :: IsPreviewOf(ds[i], a, id)
  {
    DeskRunInv(cfg, ds, steps, i);
  }

  lemma {:induction false} RowWasThere(cfg: Config, ds: seq<Desk>, steps: seq<DeskStep>, id: JobId, i: nat, j: nat)
    requires IsDeskRun(cfg, ds, steps) && i <= j < |ds| && id in ds[i].q.hist && id in ds[j].q.rows
    ensures forall k :: i <= k <= j ==> id in ds[k].q.rows
    decreases j
  {
    if i < j {
      RefinesQueue(cfg, ds, steps);
      QueueRuns.HistKept(cfg, QueueStates(ds), QueueSteps(ds, steps), id, i, j - 1);
      assert id in ds[j - 1].q.hist;
      assert DeskEnabled(cfg, ds[j - 1], steps[j - 1]) && ds[j] == DeskNext(cfg, ds[j - 1], steps[j - 1]);
      RowsComeFromInsert(cfg, ds[j - 1], steps[j - 1], id);
      RowWasThere(cfg, ds, steps, id, i, j - 1);
    }
  }

  lemma RowsComeFromInsert(cfg: Config, d: Desk, ds: DeskStep, id: JobId)
    requires DeskEnabled(cfg, d, ds) && id in d.q.hist && id in DeskNext(cfg, d, ds).q.rows
    ensures id in d.q.rows
  {
  }

  lemma PreviewStaysPut(cfg: Config, d: Desk, ds: DeskStep, a: AssetId, job: JobId)
    requires DeskInv(d) && DeskEnabled(cfg, d, ds)
    requires IsPreviewOf(d, a, job) && job in DeskNext(cfg, d, ds).q.rows
    ensures IsPreviewOf(DeskNext(cfg, d, ds), a, job)
  {
    if ds.Record? {
      assert StillTrue(d, ds.c.job, d.progress[ds.c]);
    }
  }

  lemma PreviewStaysOnce(cfg: Config, ds: seq<Desk>, steps: seq<DeskStep>, a: AssetId, job: JobId, k: nat)
    requires CarefulDeskRun(cfg, ds, steps) && k + 1 < |ds|
    requires IsPreviewOf(ds[k], a, job) && job in ds[k + 1].q.rows
    ensures IsPreviewOf(ds[k + 1], a, job)
  {
    DeskRunInv(cfg, ds, steps, k);
    PreviewStaysPut(cfg, ds[k], steps[k], a, job);
  }

  lemma {:induction false} PreviewStays(cfg: Config, ds: seq<Desk>, steps: seq<DeskStep>, a: AssetId, job: JobId,
      i: nat, j: nat)
    requires CarefulDeskRun(cfg, ds, steps) && i <= j < |ds|
    requires IsPreviewOf(ds[i], a, job) && forall k :: i <= k <= j ==> job in ds[k].q.rows
    ensures IsPreviewOf(ds[j], a, job)
    decreases j
  {
    if i < j {
      PreviewStays(cfg, ds, steps, a, job, i, j - 1);
      assert job in ds[j].q.rows;
      PreviewStaysOnce(cfg, ds, steps, a, job, j - 1);
    }
  }

  /** A preview row keeps its id across retries, stuck-requeues and re-encodes: from the moment
      it is recorded it is the job's one preview for as long as the job exists. */
  lemma PreviewIdIsStable(cfg: Config, ds: seq<Desk>, steps: seq<DeskStep>, a: AssetId, job: JobId, i: nat, j: nat)
    requires CarefulDeskRun(cfg, ds, steps) && i <= j < |ds|
    requires IsPreviewOf(ds[i], a, job) && job in ds[j].q.rows
    ensures forall b :: IsPreviewOf(ds[j], b, job) <==> b == a
  {
    DeskRunInv(cfg, ds, steps, i);
    assert ds[i].assets[a].job in ds[i].q.rows;
    RowWasThere(cfg, ds, steps, job, i, j);
    PreviewStays(cfg, ds, steps, a, job, i, j);
    OnePreviewPerJob(cfg, ds, steps, j);
  }

  function Links(d: Desk): map<JobId, bool> {
    map id | id in d.q.rows :: id in d.disabled
  }

  /** The switch turns one job's links off and on again, and no other's. */
  lemma SwitchSetsLinks(cfg: Config, d: Desk, id: JobId, off: bool)
    requires DeskEnabled(cfg, d, SwitchLinks(id, off))
    ensures var e := DeskNext(cfg, d, SwitchLinks(id, off));
      Links(e) == Links(d)[id := off] && e.assets == d.assets && e.q == d.q
  {
  }

  /** Every link already e-mailed for a preview, to view or to download it - signed for any purpose
      over the id of a recorded preview - still opens the job's preview under that purpose, exactly
      while its deadline has not passed, the job exists and its links are on. */
  lemma EmailedLinksKeepWorking(cfg: Config, ds: seq<Desk>, steps: seq<DeskStep>, mac: Tokens.Mac,
                                purpose: Base64Url.Bytes, a: AssetId, job: JobId, exp: int, i: nat, j: nat, clock: int)
    requires CarefulDeskRun(cfg, ds, steps) && i <= j < |ds|
    requires IsPreviewOf(ds[i], a, job)
    requires purpose != [] && Tokens.DOT !in purpose
    requires Tokens.IsInt64(exp) && mac(Tokens.Body(Tokens.Claim(purpose, a, exp))) != []
    requires job in ds[j].q.rows
    ensures var tok := Tokens.Token(mac, Tokens.Claim(purpose, a, exp));
      Resolve(mac, ds[j].assets, Links(ds[j]), tok, purpose, Preview, clock)
      == if clock > exp * Tokens.NANOS then Gone
         else if job in ds[j].disabled then Disabled
         else Served(a, Asset(job, Preview))
  {
    PreviewIdIsStable(cfg, ds, steps, a, job, i, j);
    assert IsPreviewOf(ds[j], a, job);
    DeskRunInv(cfg, ds, steps, j);
    var c := Tokens.Claim(purpose, a, exp);
    SignedLinkIsNotBlank(mac, c);
    Tokens.VerifyInvertsSign(mac, c, purpose, clock);
  }

  /** The two purposes the notifier signs. */
  lemma NotifierPurposes()
    ensures forall p :: p in {Tokens.Ascii("preview"), Tokens.Ascii("download")} ==> p != [] && Tokens.DOT !in p
  {
    assert |Tokens.Ascii("preview")| == 7 && |Tokens.Ascii("download")| == 8;
    forall i | 0 <= i < 7 ensures Tokens.Ascii("preview")[i] != Tokens.DOT {
      assert "preview"[i] != '.';
    }
    forall i | 0 <= i < 8 ensures Tokens.Ascii("download")[i] != Tokens.DOT {
      assert "download"[i] != '.';
    }
  }
}
