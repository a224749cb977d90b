// What the interleaved file calls come to when nobody interferes: an upload, a refused upload, a
// delete and an encode each run through to the result the service promises
// (internals/app/job/service.go, internals/worker/process.go).
module FileProgress {
  import opened Basics
  import opened Files

  function After(d: Disk, steps: seq<Step>): Disk
    decreases |steps|
  {
    if steps == [] then d else After(Next(d, steps[0]), steps[1..])
  }

  ghost predicate Allowed(d: Disk, steps: seq<Step>)
    decreases |steps|
  {
    steps == [] || (Enabled(d, steps[0]) && Allowed(Next(d, steps[0]), steps[1..]))
  }

  /** From d the steps are possible and lead to e. */
  ghost predicate Leads(d: Disk, steps: seq<Step>, e: Disk) {
    Allowed(d, steps) && After(d, steps) == e
  }

  lemma {:induction false} LeadsNowhere(d: Disk)
    ensures Leads(d, [], d)
  {
  }

  lemma {:induction false} LeadsOn(d: Disk, st: Step, steps: seq<Step>, e: Disk)
    requires Enabled(d, st) && Leads(Next(d, st), steps, e)
    ensures Leads(d, [st] + steps, e)
  {
    assert ([st] + steps)[1..] == steps;
  }

  lemma {:induction false} CallEnds(d: Disk, o: nat, call: Call)
    requires o !in d.calls
    ensures End(Goto(d, o, call), o) == d
  {
  }

  lemma {:induction false} CallMovesOn(d: Disk, o: nat, call: Call, next: Call)
    ensures Goto(Goto(d, o, call), o, next) == Goto(d, o, next)
  {
    assert d.calls[o := call][o := next] == d.calls[o := next];
  }

  // --- uploads -----------------------------------------------------------------------------------------

  /** The disk with the job row and its stored original. */
  function Uploaded(d: Disk, job: JobId, ext: string): Disk {
    d.(jobs := d.jobs + {job}, issued := d.issued + {job}, blobs := d.blobs + {OriginalKey(job, ext)})
  }

  lemma {:induction false} UploadStores(d: Disk, o: nat, job: JobId, ext: string, accepted: bool, rest: seq<Step>,
      e: Disk)
    requires o !in d.calls && job !in d.issued
    requires Leads(Goto(Uploaded(d, job, ext), o,
                        if accepted then Inserting(job, OriginalKey(job, ext))
                            else DroppingBlob(job, OriginalKey(job, ext))),
                   rest, e)
    ensures Leads(d, [InsertJob(o, job, ext)] + ([PutOriginal(o, Stored, accepted)] + rest), e)
  {
    var row := d.(jobs := d.jobs + {job}, issued := d.issued + {job});
    var d1 := Goto(row, o, Storing(job, ext));
    var next := if accepted then Inserting(job, OriginalKey(job, ext)) else DroppingBlob(job, OriginalKey(job, ext));
    CallMovesOn(Uploaded(d, job, ext), o, Storing(job, ext), next);
    assert Next(d1, PutOriginal(o, Stored, accepted)) == Goto(Uploaded(d, job, ext), o, next);
    LeadsOn(d1, PutOriginal(o, Stored, accepted), rest, e);
    LeadsOn(d, InsertJob(o, job, ext), [PutOriginal(o, Stored, accepted)] + rest, e);
  }

  /** An accepted upload ends with its job row, its file and an asset row for that file. */
  lemma {:induction false} AcceptedUploadIsKept(d: Disk, o: nat, job: JobId, ext: string, id: AssetId)
    requires o !in d.calls && job !in d.issued && id !in d.issuedAssets
    ensures var key := OriginalKey(job, ext);
      Leads(d, [InsertJob(o, job, ext)] + ([PutOriginal(o, Stored, true)] + [InsertOriginal(o, id, true)]),
            d.(jobs := d.jobs + {job}, issued := d.issued + {job}, blobs := d.blobs + {key},
               assets := d.assets[id := FileRow(job, Original, key)], issuedAssets := d.issuedAssets + {id}))
  {
    var key, up := OriginalKey(job, ext), Uploaded(d, job, ext);
    var e := up.(assets := d.assets[id := FileRow(job, Original, key)], issuedAssets := d.issuedAssets + {id});
    var mid := Goto(up, o, Inserting(job, key));
    CallEnds(e, o, Inserting(job, key));
    assert Next(mid, InsertOriginal(o, id, true)) == e;
    LeadsNowhere(e);
    LeadsOn(mid, InsertOriginal(o, id, true), [], e);
    assert [InsertOriginal(o, id, true)] + [] == [InsertOriginal(o, id, true)];
    UploadStores(d, o, job, ext, true, [InsertOriginal(o, id, true)], e);
  }

  /** A refused upload whose rollback works leaves the rows and the files as they were. */
  lemma {:induction false} RefusedUploadIsUndone(d: Disk, o: nat, job: JobId, ext: string)
    requires o !in d.calls && job !in d.issued && job !in d.jobs && OriginalKey(job, ext) !in d.blobs
    requires forall a :: a in d.assets ==> d.assets[a].job != job
    ensures Leads(d, [InsertJob(o, job, ext)] + ([PutOriginal(o, Stored,
        false)] + ([RollbackBlob(o, true)] + [RollbackRow(o, true)])),
                  d.(issued := d.issued + {job}))
  {
    var key, up, e := OriginalKey(job, ext), Uploaded(d, job, ext), d.(issued := d.issued + {job});
    var d1 := Goto(up, o, DroppingBlob(job, key));
    var bare := up.(blobs := d.blobs);
    var d2 := Goto(bare, o, DroppingRow(job));
    assert up.blobs - {key} == d.blobs;
    CallMovesOn(bare, o, DroppingBlob(job, key), DroppingRow(job));
    assert Next(d1, RollbackBlob(o, true)) == d2;
    RowDropped(d2, o, job);
    assert WithoutJob(bare, job) == e by {
      assert (map a | a in d.assets && d.assets[a].job != job :: d.assets[a]) == d.assets;
      assert d.jobs + {job} - {job} == d.jobs;
    }
    CallEnds(e, o, DroppingRow(job));
    WithoutJobAside(bare, o, job);
    LeadsNowhere(e);
    LeadsOn(d2, RollbackRow(o, true), [], e);
    assert [RollbackRow(o, true)] + [] == [RollbackRow(o, true)];
    LeadsOn(d1, RollbackBlob(o, true), [RollbackRow(o, true)], e);
    UploadStores(d, o, job, ext, false, [RollbackBlob(o, true)] + [RollbackRow(o, true)], e);
  }

  /** An upload whose Put fails after its rename leaves its file behind, with no row for it. */
  lemma {:induction false} StrandedFileStays(d: Disk, o: nat, job: JobId, ext: string)
    requires o !in d.calls && job !in d.issued && job !in d.jobs
    requires forall a :: a in d.assets ==> d.assets[a].job != job
    ensures Leads(d, [InsertJob(o, job, ext)] + ([PutOriginal(o, Stranded, false)] + [RollbackRow(o, true)]),
                  d.(issued := d.issued + {job}, blobs := d.blobs + {OriginalKey(job, ext)}))
  {
    var up := Uploaded(d, job, ext);
    var e := d.(issued := d.issued + {job}, blobs := d.blobs + {OriginalKey(job, ext)});
    var row := d.(jobs := d.jobs + {job}, issued := d.issued + {job});
    var d1, d2 := Goto(row, o, Storing(job, ext)), Goto(up, o, DroppingRow(job));
    CallMovesOn(up, o, Storing(job, ext), DroppingRow(job));
    assert Next(d1, PutOriginal(o, Stranded, false)) == d2;
    RowDropped(d2, o, job);
    assert WithoutJob(up, job) == e by {
      assert (map a | a in d.assets && d.assets[a].job != job :: d.assets[a]) == d.assets;
      assert d.jobs + {job} - {job} == d.jobs;
    }
    WithoutJobAside(up, o, job);
    CallEnds(e, o, DroppingRow(job));
    LeadsNowhere(e);
    LeadsOn(d2, RollbackRow(o, true), [], e);
    assert [RollbackRow(o, true)] + [] == [RollbackRow(o, true)];
    LeadsOn(d1, PutOriginal(o, Stranded, false), [RollbackRow(o, true)], e);
    LeadsOn(d, InsertJob(o, job, ext), [PutOriginal(o, Stranded, false)] + [RollbackRow(o, true)], e);
  }

  lemma {:induction false} RowDropped(d: Disk, o: nat, job: JobId)
    requires o in d.calls && d.calls[o] == DroppingRow(job)
    ensures Enabled(d, RollbackRow(o, true)) && Next(d, RollbackRow(o, true)) == End(WithoutJob(d, job), o)
  {
  }

  lemma {:induction false} WithoutJobAside(d: Disk, o: nat, job: JobId)
    ensures WithoutJob(Goto(d, o, DroppingRow(job)), job) == Goto(WithoutJob(d, job), o, DroppingRow(job))
  {
  }

  // --- deletes -----------------------------------------------------------------------------------------

  /** Unlinking the keys one after the other. */
  lemma {:induction false} UnlinkAll(d: Disk, o: nat, job: JobId, keys: set<Key>) returns (steps: seq<Step>)
    requires o !in d.calls
    ensures Leads(Goto(d, o, Unlinking(job, keys)), steps, Goto(d.(blobs := d.blobs - keys), o, Unlinking(job, {})))
    ensures forall st :: st in steps ==> st.DeleteBlob?
    decreases keys
  {
    var e := Goto(d.(blobs := d.blobs - keys), o, Unlinking(job, {}));
    if keys == {} {
      steps := [];
      assert d.blobs - keys == d.blobs;
      LeadsNowhere(e);
    } else {
      var key :| key in keys;
      var less := d.(blobs := d.blobs - {key});
      var rest := UnlinkAll(less, o, job, keys - {key});
      assert d.blobs - {key} - (keys - {key}) == d.blobs - keys;
      var st := DeleteBlob(o, key, true);
      CallMovesOn(less, o, Unlinking(job, keys), Unlinking(job, keys - {key}));
      assert Next(Goto(d, o, Unlinking(job, keys)), st) == Goto(less, o, Unlinking(job, keys - {key}));
      steps := [st] + rest;
      LeadsOn(Goto(d, o, Unlinking(job, keys)), st, rest, e);
    }
  }

  /** A delete that meets no failure leaves neither the job, nor its asset rows, nor any file one of
      them named - and nothing else is touched. */
  lemma {:induction false} DeleteLeavesNothing(d: Disk, o: nat, job: JobId) returns (steps: seq<Step>, e: Disk)
    requires o !in d.calls && job in d.jobs
    ensures Leads(d, steps, e)
    ensures e.jobs == d.jobs - {job} && o in e.calls && e.calls[o] == Unlinking(job, {})
    ensures forall a :: a in e.assets <==> a in d.assets && d.assets[a].job != job
    ensures forall a :: a in e.assets ==> e.assets[a] == d.assets[a]
    ensures forall key :: key in e.blobs <==>
      key in d.blobs && forall a :: a in d.assets && d.assets[a].job == job ==> d.assets[a].key != key
  {
    var keys, gone := KeysOf(d, job), WithoutJob(d, job);
    var rest := UnlinkAll(gone, o, job, keys);
    e := Goto(gone.(blobs := gone.blobs - keys), o, Unlinking(job, {}));
    var d1, d2 := Goto(d, o, Deleting(job, keys)), Goto(gone, o, Unlinking(job, keys));
    CallMovesOn(gone, o, Deleting(job, keys), Unlinking(job, keys));
    assert WithoutJob(d1, job) == Goto(gone, o, Deleting(job, keys));
    assert Next(d1, DeleteRow(o, true)) == d2;
    LeadsOn(d1, DeleteRow(o, true), rest, e);
    LeadsOn(d, ListForDelete(o, job), [DeleteRow(o, true)] + rest, e);
    steps := [ListForDelete(o, job)] + ([DeleteRow(o, true)] + rest);
  }

  // --- encodes -----------------------------------------------------------------------------------------

  /** Where a job's first encode ends: its preview file and one row for it. */
  lemma {:induction false} EncodeAddsPreview(d: Disk, o: nat, original: AssetId, name: string, id: AssetId)
    requires o !in d.calls && original in d.assets && d.assets[original].kind.Original?
    requires var job := d.assets[original].job;
      job in d.jobs && id !in d.issuedAssets
      && forall a :: a in d.assets && d.assets[a].job == job ==> !d.assets[a].kind.Preview?
    ensures var job := d.assets[original].job;
      var key := PreviewKey(job, name);
      Leads(d, [LoadOriginal(o, original)] + ([Encode(o, name, true,
          true)] + ([LookUpPreview(o, false, id)] + [AddPreview(o, id, true)])),
            d.(blobs := d.blobs + {key}, assets := d.assets[id := FileRow(job, Preview, key)],
               issuedAssets := d.issuedAssets + {id}))
  {
    var job := d.assets[original].job;
    var key := PreviewKey(job, name);
    var wrote := d.(blobs := d.blobs + {key});
    var e := wrote.(assets := d.assets[id := FileRow(job, Preview, key)], issuedAssets := d.issuedAssets + {id});
    var d3 := Goto(wrote, o, AddingPreview(job, key));
    CallEnds(e, o, AddingPreview(job, key));
    assert Next(d3, AddPreview(o, id, true)) == e;
    LeadsNowhere(e);
    LeadsOn(d3, AddPreview(o, id, true), [], e);
    assert [AddPreview(o, id, true)] + [] == [AddPreview(o, id, true)];
    PreviewWritten(d, o, original, name, false, id, AddingPreview(job, key), [AddPreview(o, id, true)], e);
  }

  lemma {:induction false} PreviewWritten(d: Disk, o: nat, original: AssetId, name: string, found: bool, id: AssetId,
                                          next: Call, rest: seq<Step>, e: Disk)
    requires o !in d.calls && original in d.assets && d.assets[original].kind.Original?
    requires var job := d.assets[original].job;
      var key := PreviewKey(job, name);
      && (if found then id in d.assets && d.assets[id].job == job && d.assets[id].kind.Preview?
          else forall a :: a in d.assets && d.assets[a].job == job ==> !d.assets[a].kind.Preview?)
      && next == (if found then UpdatingPreview(id, job, key) else AddingPreview(job, key))
      && Leads(Goto(d.(blobs := d.blobs + {key}), o, next), rest, e)
    ensures Leads(d, [LoadOriginal(o, original)] + ([Encode(o, name, true,
        true)] + ([LookUpPreview(o, found, id)] + rest)), e)
  {
    var job := d.assets[original].job;
    var key := PreviewKey(job, name);
    var wrote := d.(blobs := d.blobs + {key});
    var d1, d2 := Goto(d, o, Encoding(job)), Goto(wrote, o, Looking(job, key));
    CallMovesOn(wrote, o, Encoding(job), Looking(job, key));
    CallMovesOn(wrote, o, Looking(job, key), next);
    assert Next(d1, Encode(o, name, true, true)) == d2;
    assert Next(d2, LookUpPreview(o, found, id)) == Goto(wrote, o, next);
    LeadsOn(d2, LookUpPreview(o, found, id), rest, e);
    LeadsOn(d1, Encode(o, name, true, true), [LookUpPreview(o, found, id)] + rest, e);
    LeadsOn(d, LoadOriginal(o, original), [Encode(o, name, true, true)] + ([LookUpPreview(o, found, id)] + rest), e);
  }

  /** A later encode leaves the row's id and points it at the new file. */
  lemma {:induction false} EncodeMovesPreview(d: Disk, o: nat, original: AssetId, name: string, id: AssetId)
    requires o !in d.calls && original in d.assets && d.assets[original].kind.Original?
    requires id in d.assets && d.assets[id].job == d.assets[original].job && d.assets[id].kind.Preview?
    ensures var job := d.assets[original].job;
      var key := PreviewKey(job, name);
      Leads(d, [LoadOriginal(o, original)] + ([Encode(o, name, true,
          true)] + ([LookUpPreview(o, true, id)] + [UpdatePreview(o, true)])),
            d.(blobs := d.blobs + {key}, assets := d.assets[id := FileRow(job, Preview, key)]))
  {
    var job := d.assets[original].job;
    var key := PreviewKey(job, name);
    var wrote := d.(blobs := d.blobs + {key});
    var e := wrote.(assets := d.assets[id := FileRow(job, Preview, key)]);
    var d3 := Goto(wrote, o, UpdatingPreview(id, job, key));
    CallEnds(e, o, UpdatingPreview(id, job, key));
    assert Next(d3, UpdatePreview(o, true)) == e;
    LeadsNowhere(e);
    LeadsOn(d3, UpdatePreview(o, true), [], e);
    assert [UpdatePreview(o, true)] + [] == [UpdatePreview(o, true)];
    PreviewWritten(d, o, original, name, true, id, UpdatingPreview(id, job, key), [UpdatePreview(o, true)], e);
  }
}
