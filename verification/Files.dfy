// The files behind the rows: Create, rollback and Delete of internals/app/job/service.go and
// process of internals/worker/process.go, split at every storage and database call, interleaved
// freely and cut short anywhere. No timing hypothesis. A call that reports an error has not
// inserted a row; a failing encode leaves an existing output file in place.
module Files {
  import opened Basics

  type JobId = string
  type AssetId = string

  /** originals/<job>/original<ext> and previews/<job>/<name>. */
  datatype Key = OriginalKey(job: JobId, ext: string) | PreviewKey(job: JobId, name: string)

  datatype FileRow = FileRow(job: JobId, kind: Kind, key: Key)

  /** A call in flight, at its next storage or database call. */
  datatype Call =
    | Storing(job: JobId, ext: string)
    | Inserting(job: JobId, key: Key)
    | DroppingBlob(job: JobId, key: Key)
    | DroppingRow(job: JobId)
    | Deleting(job: JobId, keys: set<Key>)
    | Unlinking(job: JobId, keys: set<Key>)
    | Encoding(job: JobId)
    | Looking(job: JobId, key: Key)
    | AddingPreview(job: JobId, key: Key)
    | UpdatingPreview(id: AssetId, job: JobId, key: Key)

  datatype Disk = Disk(
    jobs: set<JobId>,
    issued: set<JobId>,       // every job id ever inserted
    assets: map<AssetId, FileRow>,
    issuedAssets: set<AssetId>,
    blobs: set<Key>,
    calls: map<nat, Call>)

  const EMPTY := Disk({}, {}, map[], {}, {}, map[])

  datatype Step =
    | InsertJob(o: nat, job: JobId, ext: string)
    | PutOriginal(o: nat, put: Put, accepted: bool)
    | InsertOriginal(o: nat, id: AssetId, ok: bool)
    | RollbackBlob(o: nat, ok: bool)
    | RollbackRow(o: nat, ok: bool)
    | ListForDelete(o: nat, job: JobId)
    | DeleteRow(o: nat, deleted: bool)
    | DeleteBlob(o: nat, key: Key, ok: bool)
    | LoadOriginal(o: nat, id: AssetId)
    | Encode(o: nat, name: string, wrote: bool, ok: bool)
    | LookUpPreview(o: nat, found: bool, id: AssetId)
    | AddPreview(o: nat, id: AssetId, ok: bool)
    | UpdatePreview(o: nat, ok: bool)
    | Lost(o: nat)

  ghost predicate Enabled(d: Disk, st: Step) {
    match st
    case InsertJob(o, job, ext) => o !in d.calls && job !in d.issued
    case PutOriginal(o, put, accepted) => o in d.calls && d.calls[o].Storing?
    case InsertOriginal(o, id, ok) =>
      o in d.calls && d.calls[o].Inserting? && (ok ==> id !in d.issuedAssets && d.calls[o].job in d.jobs)
    case RollbackBlob(o, ok) => o in d.calls && d.calls[o].DroppingBlob?
    case RollbackRow(o, ok) => o in d.calls && d.calls[o].DroppingRow?
    case ListForDelete(o, job) => o !in d.calls && job in d.jobs
    case DeleteRow(o, deleted) => o in d.calls && d.calls[o].Deleting?
    case DeleteBlob(o, key, ok) => o in d.calls && d.calls[o].Unlinking? && key in d.calls[o].keys
    case LoadOriginal(o, id) => o !in d.calls && id in d.assets && d.assets[id].kind.Original?
    case Encode(o, name, wrote, ok) => o in d.calls && d.calls[o].Encoding?
    case LookUpPreview(o, found, id) =>
      && o in d.calls && d.calls[o].Looking?
      && (if found then id in d.assets && d.assets[id].job == d.calls[o].job && d.assets[id].kind.Preview?
          else forall a :: a in d.assets && d.assets[a].job == d.calls[o].job ==> !d.assets[a].kind.Preview?)
    case AddPreview(o, id, ok) =>
      o in d.calls && d.calls[o].AddingPreview? && (ok ==> id !in d.issuedAssets && d.calls[o].job in d.jobs)
    case UpdatePreview(o, ok) => o in d.calls && d.calls[o].UpdatingPreview? && (ok ==> d.calls[o].id in d.assets)
    case Lost(o) => o in d.calls
  }

  function End(d: Disk, o: nat): Disk {
    d.(calls := d.calls - {o})
  }

  function Goto(d: Disk, o: nat, call: Call): Disk {
    d.(calls := d.calls[o := call])
  }

  /** Deleting a job row cascades to its asset rows. */
  function WithoutJob(d: Disk, job: JobId): Disk {
    d.(jobs := d.jobs - {job}, assets := map a | a in d.assets && d.assets[a].job != job :: d.assets[a])
  }

  function KeysOf(d: Disk, job: JobId): set<Key> {
    set a | a in d.assets && d.assets[a].job == job :: d.assets[a].key
  }

  function AfterPut(d: Disk, o: nat, job: JobId, key: Key, put: Put, accepted: bool): Disk {
    match put
    case NotStored => Goto(d, o, DroppingRow(job))
    case Stranded => Goto(d.(blobs := d.blobs + {key}), o, DroppingRow(job))
    case Stored => Goto(d.(blobs := d.blobs + {key}), o,
                        if accepted then Inserting(job, key) else DroppingBlob(job, key))
  }

  function Next(d: Disk, st: Step): Disk {
    match st
    case InsertJob(o, job, ext) =>
      Goto(d.(jobs := d.jobs + {job}, issued := d.issued + {job}), o, Storing(job, ext))
    case PutOriginal(o, put, accepted) =>
      if o in d.calls && d.calls[o].Storing? then
        AfterPut(d, o, d.calls[o].job, OriginalKey(d.calls[o].job, d.calls[o].ext), put, accepted)
      else d
    case InsertOriginal(o, id, ok) =>
      if o !in d.calls || !d.calls[o].Inserting? then d
      else
        var c := d.calls[o];
        if ok then
          End(d.(assets := d.assets[id := FileRow(c.job, Original, c.key)],
                 issuedAssets := d.issuedAssets + {id}), o)
        else Goto(d, o, DroppingBlob(c.job, c.key))
    case RollbackBlob(o, ok) =>
      if o in d.calls && d.calls[o].DroppingBlob? then
        Goto(if ok then d.(blobs := d.blobs - {d.calls[o].key}) else d, o, DroppingRow(d.calls[o].job))
      else d
    case RollbackRow(o, ok) =>
      if o in d.calls && d.calls[o].DroppingRow? then End(if ok then WithoutJob(d, d.calls[o].job) else d, o) else d
    case ListForDelete(o, job) => Goto(d, o, Deleting(job, KeysOf(d, job)))
    case DeleteRow(o, deleted) =>
      if o in d.calls && d.calls[o].Deleting? then
        if deleted then Goto(WithoutJob(d, d.calls[o].job), o, Unlinking(d.calls[o].job, d.calls[o].keys))
        else End(d, o)
      else d
    case DeleteBlob(o, key, ok) =>
      if o in d.calls && d.calls[o].Unlinking? then
        Goto(if ok then d.(blobs := d.blobs - {key}) else d, o, Unlinking(d.calls[o].job, d.calls[o].keys - {key}))
      else d
    case LoadOriginal(o, id) => if id in d.assets then Goto(d, o, Encoding(d.assets[id].job)) else d
    case Encode(o, name, wrote, ok) =>
      if o in d.calls && d.calls[o].Encoding? then
        var key := PreviewKey(d.calls[o].job, name);
        if ok then Goto(d.(blobs := d.blobs + {key}), o, Looking(d.calls[o].job, key))
        else End(if wrote then d.(blobs := d.blobs + {key}) else d, o)
      else d
    case LookUpPreview(o, found, id) =>
      if o in d.calls && d.calls[o].Looking? then
        var c := d.calls[o];
        Goto(d, o, if found then UpdatingPreview(id, c.job, c.key) else AddingPreview(c.job, c.key))
      else d
    case AddPreview(o, id, ok) =>
      if o in d.calls && d.calls[o].AddingPreview? then
        var row := FileRow(d.calls[o].job, Preview, d.calls[o].key);
        End(if ok then d.(assets := d.assets[id := row], issuedAssets := d.issuedAssets + {id}) else d, o)
      else d
    case UpdatePreview(o, ok) =>
      if o in d.calls && d.calls[o].UpdatingPreview? then
        var row := FileRow(d.calls[o].job, Preview, d.calls[o].key);
        End(if ok then d.(assets := d.assets[d.calls[o].id := row]) else d, o)
      else d
    case Lost(o) => End(d, o)
  }

  ghost predicate IsRun(ds: seq<Disk>, steps: seq<Step>) {
    && |ds| == |steps| + 1 && ds[0] == EMPTY
    && forall i :: 0 <= i < |steps| ==> Enabled(ds[i], steps[i]) && ds[i + 1] == Next(ds[i], steps[i])
  }
}
