// At every crash point, each asset row's storage key has its file.
module FileSafety {
  import opened Files

  /** A row's file is stored, under a key of its own job and kind, and its job exists. */
  predicate Backed(d: Disk, r: FileRow) {
    && r.key in d.blobs && r.job in d.jobs && r.key.job == r.job
    && (r.kind.Original? <==> r.key.OriginalKey?)
  }

  ghost predicate Rows(d: Disk) {
    && (forall a :: a in d.assets ==> a in d.issuedAssets && Backed(d, d.assets[a]))
    && d.jobs <= d.issued
  }

  /** The encoded file is there for as long as its job is. */
  predicate InPlace(d: Disk, job: JobId, key: Key) {
    key.PreviewKey? && key.job == job && (job in d.jobs ==> key in d.blobs)
  }

  predicate JobsKeys(job: JobId, keys: set<Key>) {
    forall k :: k in keys ==> k.job == job
  }

  /** What a waiting call relies on in the tables. */
  predicate CallOk(d: Disk, call: Call) {
    match call
    case Storing(job, ext) => true
    case Inserting(job, key) => key.OriginalKey? && key.job == job && key in d.blobs
    case DroppingBlob(job, key) => key.OriginalKey? && key.job == job
    case DroppingRow(job) => true
    case Deleting(job, keys) => JobsKeys(job, keys)
    case Unlinking(job, keys) => job !in d.jobs && JobsKeys(job, keys)
    case Encoding(job) => true
    case Looking(job, key) => InPlace(d, job, key)
    case AddingPreview(job, key) => InPlace(d, job, key)
    case UpdatingPreview(id, job, key) =>
      InPlace(d, job, key) && id in d.issuedAssets
          && (id in d.assets ==> d.assets[id].job == job && d.assets[id].kind.Preview?)
  }

  function JobOf(call: Call): JobId {
    call.job
  }

  ghost predicate Calls(d: Disk) {
    forall o :: o in d.calls ==> CallOk(d, d.calls[o]) && JobOf(d.calls[o]) in d.issued
  }

  predicate Creates(call: Call) {
    call.Storing? || call.Inserting? || call.DroppingBlob? || call.DroppingRow?
  }

  /** This call may unlink an original. */
  predicate DropsOriginal(call: Call) {
    (call.Deleting? || call.Unlinking?) && exists k :: k in call.keys && k.OriginalKey?
  }

  /** While an upload is in flight it is the only one for its job, no original of that job is
      recorded, and nobody is about to unlink one. */
  ghost predicate Uploads(d: Disk) {
    && (forall o, u ::
          o in d.calls && u in d.calls && o != u && Creates(d.calls[o]) && JobOf(d.calls[u]) == JobOf(d.calls[o]) ==>
          !Creates(d.calls[u]) && !DropsOriginal(d.calls[u]))
    && (forall o, a :: o in d.calls && a in d.assets && Creates(d.calls[o]) && d.assets[a].kind.Original? ==>
          d.assets[a].job != JobOf(d.calls[o]))
  }

  ghost predicate Inv(d: Disk) {
    Rows(d) && Calls(d) && Uploads(d)
  }

  // --- how the tables may move under a waiting call -------------------------------------------------

  /** Ids and jobs are not reused, rows keep job and kind, and only the files in gone go. */
  ghost predicate Moves(d: Disk, e: Disk, gone: set<Key>) {
    && d.issued <= e.issued && d.issuedAssets <= e.issuedAssets
    && (forall j :: j in e.jobs ==> j in d.jobs || j !in d.issued)
    && d.blobs - gone <= e.blobs
    && (forall a :: a in e.assets && a in d.issuedAssets ==>
          a in d.assets && e.assets[a].job == d.assets[a].job && e.assets[a].kind == d.assets[a].kind)
  }

  /** The file this call counts on is not among those that go, or its job goes with it. */
  predicate Spared(e: Disk, call: Call, gone: set<Key>) {
    match call
    case Inserting(job, key) => key !in gone
    case Looking(job, key) => job in e.jobs ==> key !in gone
    case AddingPreview(job, key) => job in e.jobs ==> key !in gone
    case UpdatingPreview(id, job, key) => job in e.jobs ==> key !in gone
    case _ => true
  }

  lemma CallSurvives(d: Disk, e: Disk, gone: set<Key>, call: Call)
    requires Moves(d, e, gone) && CallOk(d, call) && JobOf(call) in d.issued && Spared(e, call, gone)
    ensures CallOk(e, call) && JobOf(call) in e.issued
  {
  }

  lemma OthersSurvive(d: Disk, e: Disk, gone: set<Key>, o: nat)
    requires Calls(d) && Moves(d, e, gone)
    requires forall u :: u in d.calls && u != o ==> Spared(e, d.calls[u], gone)
    requires forall u :: u in e.calls && u != o ==> u in d.calls && e.calls[u] == d.calls[u]
    requires o in e.calls ==> CallOk(e, e.calls[o]) && JobOf(e.calls[o]) in e.issued
    ensures Calls(e)
  {
    forall u | u in e.calls ensures CallOk(e, e.calls[u]) && JobOf(e.calls[u]) in e.issued {
      if u != o {
        CallSurvives(d, e, gone, e.calls[u]);
      }
    }
  }

  /** Uploads stay apart when a call moves on without becoming an upload or taking up an original,
      and no original is added. */
  lemma UploadsSurvive(d: Disk, e: Disk, o: nat)
    requires Uploads(d)
    requires forall u :: u in e.calls && u != o ==> u in d.calls && e.calls[u] == d.calls[u]
    requires o in e.calls && Creates(e.calls[o]) ==>
      o in d.calls && Creates(d.calls[o]) && JobOf(d.calls[o]) == JobOf(e.calls[o])
    requires o in e.calls && DropsOriginal(e.calls[o]) ==>
      o in d.calls && DropsOriginal(d.calls[o]) && JobOf(d.calls[o]) == JobOf(e.calls[o])
    requires forall a :: a in e.assets && e.assets[a].kind.Original? ==>
      a in d.assets && d.assets[a].kind.Original? && d.assets[a].job == e.assets[a].job
    ensures Uploads(e)
  {
  }

  // --- the steps ------------------------------------------------------------------------------------

  lemma InsertJobKeeps(d: Disk, st: Step)
    requires Inv(d) && Enabled(d, st) && st.InsertJob?
    ensures Inv(Next(d, st))
  {
    OthersSurvive(d, Next(d, st), {}, st.o);
  }

  /** An upload in flight moves on; files may be added. */
  lemma UploadMoves(d: Disk, e: Disk, o: nat, call: Call)
    requires Inv(d) && o in d.calls && Creates(d.calls[o]) && Creates(call) && JobOf(call) == JobOf(d.calls[o])
    requires e == d.(blobs := e.blobs, calls := d.calls[o := call]) && d.blobs <= e.blobs && CallOk(e, call)
    ensures Inv(e)
  {
    UploadsSurvive(d, e, o);
    hide Uploads;
    OthersSurvive(d, e, {}, o);
    hide Calls;
  }

  lemma PutKeeps(d: Disk, st: Step)
    requires Inv(d) && Enabled(d, st) && st.PutOriginal?
    ensures Inv(Next(d, st))
  {
    var e := Next(d, st);
    hide Inv;
    UploadMoves(d, e, st.o, e.calls[st.o]);
  }

  lemma InsertOriginalKeeps(d: Disk, st: Step)
    requires Inv(d) && Enabled(d, st) && st.InsertOriginal?
    ensures Inv(Next(d, st))
  {
    OthersSurvive(d, Next(d, st), {}, st.o);
  }

  lemma RollbackBlobKeeps(d: Disk, st: Step)
    requires Inv(d) && Enabled(d, st) && st.RollbackBlob?
    ensures Inv(Next(d, st))
  {
    var e, c := Next(d, st), d.calls[st.o];
    forall u | u in d.calls && u != st.o ensures Spared(e, d.calls[u], {c.key}) {
      assert CallOk(d, d.calls[u]);
      assert d.calls[u].Inserting? ==> JobOf(d.calls[u]) != JobOf(c);
    }
    UploadsSurvive(d, e, st.o);
    OthersSurvive(d, e, {c.key}, st.o);
    hide Calls;
    forall a | a in e.assets ensures Backed(e, e.assets[a]) {
      assert Backed(d, d.assets[a]);
    }
  }

  lemma WithoutJobKeepsRows(d: Disk, job: JobId)
    requires Rows(d)
    ensures Rows(WithoutJob(d, job))
  {
    var e := WithoutJob(d, job);
    forall a | a in e.assets ensures a in e.issuedAssets && Backed(e, e.assets[a]) {
      assert Backed(d, d.assets[a]);
    }
  }

  lemma DropRowKeeps(d: Disk, st: Step)
    requires Inv(d) && Enabled(d, st) && (st.RollbackRow? || st.DeleteRow?)
    ensures Inv(Next(d, st))
  {
    WithoutJobKeepsRows(d, JobOf(d.calls[st.o]));
    UploadsSurvive(d, Next(d, st), st.o);
    OthersSurvive(d, Next(d, st), {}, st.o);
    hide Uploads, Calls;
  }

  lemma ListKeeps(d: Disk, st: Step)
    requires Inv(d) && Enabled(d, st) && st.ListForDelete?
    ensures Inv(Next(d, st))
  {
    var e := Next(d, st);
    forall k | k in KeysOf(d, st.job) ensures k.job == st.job {
      var a :| a in d.assets && d.assets[a].job == st.job && d.assets[a].key == k;
      assert Backed(d, d.assets[a]);
    }
    OthersSurvive(d, e, {}, st.o);
    forall o | o in d.calls && Creates(d.calls[o]) && JobOf(d.calls[o]) == st.job
      ensures !DropsOriginal(e.calls[st.o])
    {
      forall k | k in KeysOf(d, st.job) ensures !k.OriginalKey? {
        var a :| a in d.assets && d.assets[a].job == st.job && d.assets[a].key == k;
        assert Backed(d, d.assets[a]);
      }
    }
  }

  lemma DeleteBlobKeeps(d: Disk, st: Step)
    requires Inv(d) && Enabled(d, st) && st.DeleteBlob?
    ensures Inv(Next(d, st))
  {
    var e, c := Next(d, st), d.calls[st.o];
    assert JobsKeys(c.job, c.keys) && st.key.job == c.job && c.job !in d.jobs;
    forall u | u in d.calls && u != st.o ensures Spared(e, d.calls[u], {st.key}) {
      assert CallOk(d, d.calls[u]);
      if d.calls[u].Inserting? && d.calls[u].key == st.key {
        assert DropsOriginal(c);
      }
    }
    UploadsSurvive(d, e, st.o);
    OthersSurvive(d, e, {st.key}, st.o);
    hide Uploads, Calls;
    forall a | a in e.assets ensures Backed(e, e.assets[a]) {
      assert Backed(d, d.assets[a]);
    }
  }

  lemma EncodeKeeps(d: Disk, st: Step)
    requires Inv(d) && Enabled(d, st) && (st.LoadOriginal? || st.Encode? || st.LookUpPreview? || st.Lost?)
    ensures Inv(Next(d, st))
  {
    UploadsSurvive(d, Next(d, st), st.o);
    OthersSurvive(d, Next(d, st), {}, st.o);
    hide Uploads, Calls;
  }

  lemma AddKeeps(d: Disk, st: Step)
    requires Inv(d) && Enabled(d, st) && st.AddPreview?
    ensures Inv(Next(d, st))
  {
    assert CallOk(d, d.calls[st.o]);
    UploadsSurvive(d, Next(d, st), st.o);
    OthersSurvive(d, Next(d, st), {}, st.o);
    hide Uploads, Calls;
  }

  lemma UpdateKeeps(d: Disk, st: Step)
    requires Inv(d) && Enabled(d, st) && st.UpdatePreview?
    ensures Inv(Next(d, st))
  {
    assert CallOk(d, d.calls[st.o]);
    UploadsSurvive(d, Next(d, st), st.o);
    OthersSurvive(d, Next(d, st), {}, st.o);
    hide Uploads, Calls;
  }

  lemma RecordKeeps(d: Disk, st: Step)
    requires Inv(d) && Enabled(d, st) && (st.AddPreview? || st.UpdatePreview?)
    ensures Inv(Next(d, st))
  {
    hide *;
    if st.AddPreview? {
      AddKeeps(d, st);
    } else {
      UpdateKeeps(d, st);
    }
  }

  lemma StepKeeps(d: Disk, st: Step)
    requires Inv(d) && Enabled(d, st)
    ensures Inv(Next(d, st))
  {
    hide *;
    match st
    case InsertJob(_, _, _) => InsertJobKeeps(d, st);
    case PutOriginal(_, _, _) => PutKeeps(d, st);
    case InsertOriginal(_, _, _) => InsertOriginalKeeps(d, st);
    case RollbackBlob(_, _) => RollbackBlobKeeps(d, st);
    case RollbackRow(_, _) => DropRowKeeps(d, st);
    case DeleteRow(_, _) => DropRowKeeps(d, st);
    case ListForDelete(_, _) => ListKeeps(d, st);
    case DeleteBlob(_, _, _) => DeleteBlobKeeps(d, st);
    case LoadOriginal(_, _) => EncodeKeeps(d, st);
    case Encode(_, _, _, _) => EncodeKeeps(d, st);
    case LookUpPreview(_, _, _) => EncodeKeeps(d, st);
    case Lost(_) => EncodeKeeps(d, st);
    case AddPreview(_, _, _) => RecordKeeps(d, st);
    case UpdatePreview(_, _) => RecordKeeps(d, st);
  }

  lemma {:induction false} RunInv(ds: seq<Disk>, steps: seq<Step>, i: nat)
    requires IsRun(ds, steps) && i < |ds|
    ensures Inv(ds[i])
  {
    if i > 0 {
      RunInv(ds, steps, i - 1);
      StepKeeps(ds[i - 1], steps[i - 1]);
    }
  }

  /** In every state of every run - calls interleaved in any order and cut short at any point - each
      asset row's file is in storage, under a key of the row's own job, and the job row exists. */
  lemma EveryAssetHasItsFile(ds: seq<Disk>, steps: seq<Step>, i: nat)
    requires IsRun(ds, steps) && i < |ds|
    ensures forall a :: a in ds[i].assets ==>
      && ds[i].assets[a].key in ds[i].blobs && ds[i].assets[a].key.job == ds[i].assets[a].job
      && ds[i].assets[a].job in ds[i].jobs
  {
    RunInv(ds, steps, i);
    forall a | a in ds[i].assets
      ensures ds[i].assets[a].key in ds[i].blobs && ds[i].assets[a].key.job == ds[i].assets[a].job
      ensures ds[i].assets[a].job in ds[i].jobs
    {
      assert Backed(ds[i], ds[i].assets[a]);
    }
  }
}
