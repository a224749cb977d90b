// Create, rollback, Delete and Usage of internals/app/job/service.go over the tables and the blob
// store, one call at a time, with every storage and database failure a parameter.
module JobService {
  import opened Basics
  import StoredBytes

  type User = string
  type JobId = string
  type AssetId = string
  type Key = string

  datatype AssetRow = AssetRow(job: JobId, key: Key, size: nat)

  datatype Limits = Limits(maxBytes: nat, jobsPerDay: nat, quotaBytes: nat)

  /** What the outside world answers during one Create. */
  datatype Luck = Luck(
    inputOk: bool,        // recipient, text and kind are fine
    snapshotOk: bool,
    typeOk: bool,         // the file's extension is an allowed one
    declared: nat,
    exempt: bool,
    last24h: nat,
    usageOk: bool,
    rowOk: bool,
    put: Put,
    size: nat,            // of the file, where there is one
    mediaOk: bool,
    assetOk: bool,
    blobDropped: bool,    // rollback's two deletes
    rowDropped: bool)

  datatype Outcome = Created | InvalidInput | FileTooLarge | DailyLimit | StorageQuota | EmptyFile | Internal
      | UnsupportedMedia | CorruptMedia

  /** Everything Create may change. */
  datatype Tables = Tables(jobs: map<JobId, User>, assets: map<AssetId, AssetRow>, blobs: map<Key, nat>)

  function SizesOf(t: Tables, user: User): map<AssetId, nat> {
    map a | a in t.assets && t.assets[a].job in t.jobs && t.jobs[t.assets[a].job] == user :: t.assets[a].size
  }

  ghost function StorageBytes(t: Tables, user: User): nat {
    StoredBytes.Total(SizesOf(t, user))
  }

  ghost predicate NoStrayAssets(t: Tables) {
    forall a :: a in t.assets ==> t.assets[a].job in t.jobs
  }

  function OriginalKey(id: JobId, ext: string): Key {
    "originals/" + id + "/original" + ext
  }

  lemma OriginalKeyIsSet(id: JobId, ext: string)
    ensures OriginalKey(id, ext) != ""
  {
  }

  /** Removing a job row cascades to its assets. */
  function WithoutJob(t: Tables, id: JobId): Tables {
    t.(jobs := t.jobs - {id}, assets := map a | a in t.assets && t.assets[a].job != id :: t.assets[a])
  }

  /** The checks before anything is written. */
  function Refusal(l: Luck, lim: Limits, used: nat): Outcome {
    if !l.inputOk then InvalidInput
    else if !l.snapshotOk then Internal
    else if !l.typeOk then UnsupportedMedia
    else if lim.maxBytes > 0 && l.declared > lim.maxBytes then FileTooLarge
    else if !l.usageOk then Internal
    else if !l.exempt && lim.jobsPerDay > 0 && l.last24h >= lim.jobsPerDay then DailyLimit
    else if !l.exempt && lim.quotaBytes > 0 && used + l.declared > lim.quotaBytes then StorageQuota
    else if !l.rowOk then Internal
    else Created
  }

  /** What happens to the stored upload. */
  function Verdict(l: Luck, lim: Limits, used: nat): Outcome {
    if !l.put.Stored? then Internal
    else if l.size == 0 then EmptyFile
    else if lim.maxBytes > 0 && l.size > lim.maxBytes then FileTooLarge
    else if !l.exempt && lim.quotaBytes > 0 && used + l.size > lim.quotaBytes then StorageQuota
    else if !l.mediaOk then CorruptMedia
    else if !l.assetOk then Internal
    else Created
  }

  /** Best effort: the blob first, if there is one, then the job row with its assets. */
  function RolledBack(t: Tables, id: JobId, key: Key, blobDropped: bool, rowDropped: bool): Tables {
    var blobs := if key != "" && blobDropped then t.blobs - {key} else t.blobs;
    (if rowDropped then WithoutJob(t, id) else t).(blobs := blobs)
  }

  /** The job row and the file are in; then the asset row, or rollback. A failed Put is rolled back
      without a key, whether or not it left its file. */
  function AfterStore(t: Tables, user: User, id: JobId, a: AssetId, ext: string, l: Luck, lim: Limits,
      used: nat): Tables {
    var key := OriginalKey(id, ext);
    var mid := t.(jobs := t.jobs[id := user], blobs := if l.put.NotStored? then t.blobs else t.blobs[key := l.size]);
    if Verdict(l, lim, used) == Created then mid.(assets := mid.assets[a := AssetRow(id, key, l.size)])
    else RolledBack(mid, id, if l.put.Stored? then key else "", l.blobDropped, l.rowDropped)
  }

  function AfterCreate(t: Tables, user: User, id: JobId, a: AssetId, ext: string, l: Luck, lim: Limits,
      used: nat): Tables {
    if Refusal(l, lim, used) != Created then t else AfterStore(t, user, id, a, ext, l, lim, used)
  }

  /** An upload whose Put failed after its rename: the row is rolled back, the file stays behind. */
  lemma StrandedFileStays()
    ensures var t, lim := Tables(map[], map[], map[]), Limits(0, 0, 0);
      var l := Luck(true, true, true, 7, false, 0, true, true, Stranded, 7, true, true, true, true);
      && StorageBytes(t, "u") == 0
      && Refusal(l, lim, 0) == Created && Verdict(l, lim, 0) == Internal
      && AfterCreate(t, "u", "j", "a", ".jpg", l, lim, 0) == Tables(map[], map[], map["originals/j/original.jpg" := 7])
  {
    var t := Tables(map[], map[], map[]);
    assert SizesOf(t, "u") == map[];
    assert OriginalKey("j", ".jpg") == "originals/j/original.jpg";
    assert t.jobs["j" := "u"] - {"j"} == t.jobs;
  }

  lemma UnstoredIsInternal(l: Luck, lim: Limits, used: nat)
    requires !l.put.Stored?
    ensures Verdict(l, lim, used) == Internal
  {
  }

  lemma OneMoreAsset(t: Tables, u: Tables, user: User, id: JobId, a: AssetId, row: AssetRow)
    requires NoStrayAssets(t) && id !in t.jobs && a !in t.assets && row.job == id
    requires u.jobs == t.jobs[id := user] && u.assets == t.assets[a := row]
    ensures NoStrayAssets(u) && StorageBytes(u, user) == StorageBytes(t, user) + row.size
  {
    assert SizesOf(u, user) == SizesOf(t, user)[a := row.size];
    StoredBytes.PutIn(SizesOf(t, user), a, row.size);
  }

  /** What another account stores, or stores no longer, does not count. */
  lemma OthersDoNotCount(t: Tables, u: Tables, user: User, a: AssetId)
    requires u.jobs == t.jobs && forall x :: x != a ==> (x in u.assets <==> x in t.assets)
    requires forall x :: x != a && x in u.assets ==> u.assets[x] == t.assets[x]
    requires a in t.assets ==> t.assets[a].job in t.jobs && t.jobs[t.assets[a].job] != user
    requires a in u.assets ==> u.assets[a].job in u.jobs && u.jobs[u.assets[a].job] != user
    ensures StorageBytes(u, user) == StorageBytes(t, user)
  {
    assert SizesOf(u, user) == SizesOf(t, user);
  }

  /** Every limit of an upload is met: the declared and the stored size, the number of jobs and, with
      what the account has stored, the quota. A limit of zero is none. */
  predicate WithinLimits(l: Luck, lim: Limits, used: nat) {
    && (lim.maxBytes == 0 || (l.declared <= lim.maxBytes && l.size <= lim.maxBytes))
    && (l.exempt || lim.jobsPerDay == 0 || l.last24h < lim.jobsPerDay)
    && (l.exempt || lim.quotaBytes == 0 || (used + l.declared <= lim.quotaBytes && used + l.size <= lim.quotaBytes))
  }

  /** Nothing the outside world answers stands in the way. */
  predicate AllWell(l: Luck) {
    && l.inputOk && l.snapshotOk && l.typeOk && l.usageOk && l.rowOk && l.put.Stored? && l.size > 0
    && l.mediaOk && l.assetOk
  }

  /** What the visitor is told. */
  function Told(l: Luck, lim: Limits, used: nat): Outcome {
    if Refusal(l, lim, used) == Created then Verdict(l, lim, used) else Refusal(l, lim, used)
  }

  /** An upload succeeds exactly within all limits with nothing in the way, and each refusal names
      something that was wrong. */
  lemma CreatedIff(l: Luck, lim: Limits, used: nat)
    ensures Told(l, lim, used) == Created <==> AllWell(l) && WithinLimits(l, lim, used)
    ensures Told(l, lim, used) == InvalidInput <==> !l.inputOk
    ensures Told(l, lim, used) == UnsupportedMedia <==> l.inputOk && l.snapshotOk && !l.typeOk
    ensures Told(l, lim, used) == FileTooLarge ==>
      lim.maxBytes > 0 && (l.declared > lim.maxBytes || (l.put.Stored? && l.size > lim.maxBytes))
    ensures Told(l, lim, used) == DailyLimit ==> !l.exempt && 0 < lim.jobsPerDay <= l.last24h
    ensures Told(l, lim, used) == StorageQuota ==>
      !l.exempt && 0 < lim.quotaBytes && (used + l.declared > lim.quotaBytes || used + l.size > lim.quotaBytes)
    ensures Told(l, lim, used) == EmptyFile ==> l.put.Stored? && l.size == 0
    ensures Told(l, lim, used) == CorruptMedia ==> l.put.Stored? && !l.mediaOk
    ensures Told(l, lim, used) == Internal ==>
      !l.snapshotOk || !l.usageOk || !l.rowOk || !l.put.Stored? || !l.assetOk
  {
  }

  /** With everything else in order, the one thing that is wrong decides what is told. */
  lemma RefusedFor(l: Luck, lim: Limits, used: nat)
    ensures l.inputOk && l.snapshotOk && l.typeOk && lim.maxBytes > 0 && l.declared > lim.maxBytes ==>
      Told(l, lim, used) == FileTooLarge
    ensures AllWell(l.(size := 1)) && l.size == 0 && WithinLimits(l, lim, used) ==> Told(l, lim, used) == EmptyFile
    ensures AllWell(l) && WithinLimits(l.(last24h := 0), lim, used) && !WithinLimits(l, lim, used) ==>
      Told(l, lim, used) == DailyLimit
    ensures AllWell(l) && WithinLimits(l, lim.(quotaBytes := 0), used) && !WithinLimits(l, lim, used) ==>
      Told(l, lim, used) == StorageQuota
    ensures AllWell(l.(mediaOk := true)) && !l.mediaOk && WithinLimits(l, lim, used) ==>
        Told(l, lim, used) == CorruptMedia
  {
  }

  /** After rollback: with both deletes done, what was there before the upload. */
  lemma Undone(t: Tables, user: User, id: JobId, key: Key, size: nat, u: Tables, blobDropped: bool, rowDropped: bool)
    requires NoStrayAssets(t) && id !in t.jobs && key !in t.blobs
    requires var mid := t.(jobs := t.jobs[id := user], blobs := t.blobs[key := size]);
      u == (if rowDropped then WithoutJob(mid, id) else mid).(blobs := if blobDropped then mid.blobs - {key}
          else mid.blobs)
    ensures NoStrayAssets(u)
    ensures rowDropped ==> (u == t <==> blobDropped)
  {
    assert t.jobs[id := user] - {id} == t.jobs;
    assert (map a | a in t.assets && t.assets[a].job != id :: t.assets[a]) == t.assets;
    assert t.blobs[key := size] - {key} == t.blobs;
    assert key in t.blobs[key := size];
  }

  lemma NothingStored(t: Tables, user: User, id: JobId, u: Tables, rowDropped: bool)
    requires NoStrayAssets(t) && id !in t.jobs
    requires var mid := t.(jobs := t.jobs[id := user]);
      u == (if rowDropped then WithoutJob(mid, id) else mid).(blobs := t.blobs)
    ensures NoStrayAssets(u)
    ensures rowDropped ==> u == t
  {
    assert t.jobs[id := user] - {id} == t.jobs;
    assert (map a | a in t.assets && t.assets[a].job != id :: t.assets[a]) == t.assets;
  }

  class JobService {
    const limits: Limits
    var jobs: map<JobId, User>
    var assets: map<AssetId, AssetRow>
    var blobs: map<Key, nat>

    constructor (limits: Limits)
      ensures this.limits == limits && View() == Tables(map[], map[], map[])
    {
      this.limits := limits;
      jobs, assets, blobs := map[], map[], map[];
    }

    function View(): Tables
      reads this
    {
      Tables(jobs, assets, blobs)
    }

    /** SELECT SUM(size_bytes) over the account's assets. */
    method Usage(user: User) returns (used: nat)
      ensures used == StorageBytes(View(), user)
    {
      used := 0;
      ghost var sizes := SizesOf(View(), user);
      ghost var left := sizes;
      var todo := assets.Keys;
      while todo != {}
        invariant todo <= assets.Keys
        invariant left.Keys == sizes.Keys * todo && forall a :: a in left ==> left[a] == sizes[a]
        invariant used + StoredBytes.Total(left) == StoredBytes.Total(sizes)
      {
        var a :| a in todo;
        if assets[a].job in jobs && jobs[assets[a].job] == user {
          StoredBytes.TakeOut(left, a);
          used := used + assets[a].size;
        } else {
          assert left - {a} == left;
        }
        left := left - {a};
        todo := todo - {a};
      }
      assert left == map[];
    }

    /** Best effort: the blob first, if there is one, then the job row. */
    method Rollback(id: JobId, key: Key, blobDropped: bool, rowDropped: bool)
      modifies this
      ensures View() == RolledBack(old(View()), id, key, blobDropped, rowDropped)
    {
      if key != "" && blobDropped {
        blobs := blobs - {key};
      }
      if rowDropped {
        DeleteRow(id);
      }
    }

    /** Rollback of a stored upload, and what it leaves. */
    method Undo(user: User, id: JobId, key: Key, size: nat, blobDropped: bool, rowDropped: bool, ghost before: Tables)
      requires NoStrayAssets(before) && id !in before.jobs && key !in before.blobs && key != ""
      requires View() == before.(jobs := before.jobs[id := user], blobs := before.blobs[key := size])
      modifies this
      ensures NoStrayAssets(View()) && View() == RolledBack(old(View()), id, key, blobDropped, rowDropped)
      ensures rowDropped ==> (View() == before <==> blobDropped)
    {
      hide WithoutJob, NoStrayAssets;
      Rollback(id, key, blobDropped, rowDropped);
      Undone(before, user, id, key, size, View(), blobDropped, rowDropped);
    }

    method DeleteRow(id: JobId)
      modifies this`jobs, this`assets
      ensures View() == WithoutJob(old(View()), id)
    {
      jobs := jobs - {id};
      assets := map a | a in assets && assets[a].job != id :: assets[a];
    }

    /** Accepted exactly when every check passes; then there is one new job, asset and blob and a
        non-exempt account is within its quota. A refused upload leaves everything as it was once
        rollback's deletes succeed - exactly unless Put failed after its rename. */
    method Create(user: User, id: JobId, a: AssetId, ext: string, l: Luck) returns (r: Outcome)
      requires NoStrayAssets(View()) && id !in jobs && a !in assets && OriginalKey(id, ext) !in blobs
      modifies this
      ensures NoStrayAssets(View())
      ensures r == Told(l, limits, StorageBytes(old(View()), user))
      ensures r == Created <==> AllWell(l) && WithinLimits(l, limits, StorageBytes(old(View()), user))
      ensures View() == AfterCreate(old(View()), user, id, a, ext, l, limits, StorageBytes(old(View()), user))
      ensures r == Created ==> l.put.Stored?
      ensures r == Created ==>
        var key := OriginalKey(id, ext);
        View() == Tables(old(jobs)[id := user], old(assets)[a := AssetRow(id, key, l.size)], old(blobs)[key := l.size])
      ensures r == Created && !l.exempt && limits.quotaBytes > 0 ==> StorageBytes(View(), user) <= limits.quotaBytes
      ensures r != Created && Refusal(l, limits, StorageBytes(old(View()), user)) != Created ==> View() == old(View())
      ensures Refusal(l, limits, StorageBytes(old(View()), user)) == Created ==>
        (r != Created && l.blobDropped && l.rowDropped ==> (View() == old(View()) <==> !l.put.Stranded?))
    {
      CreatedIff(l, limits, StorageBytes(old(View()), user));
      hide Told, AllWell, WithinLimits;
      if !l.inputOk {
        return InvalidInput;
      }
      if !l.snapshotOk {
        return Internal;
      }
      if !l.typeOk {
        return UnsupportedMedia;
      }
      if limits.maxBytes > 0 && l.declared > limits.maxBytes {
        return FileTooLarge;
      }
      if !l.usageOk {
        return Internal;
      }
      var used := Usage(user);
      if !l.exempt {
        if limits.jobsPerDay > 0 && l.last24h >= limits.jobsPerDay {
          return DailyLimit;
        }
        if limits.quotaBytes > 0 && used + l.declared > limits.quotaBytes {
          return StorageQuota;
        }
      }
      if !l.rowOk {
        return Internal;
      }
      r := Store(user, id, a, ext, l, used);
    }

    /** The half of Create that writes. */
    method Store(user: User, id: JobId, a: AssetId, ext: string, l: Luck, used: nat) returns (r: Outcome)
      requires NoStrayAssets(View()) && id !in jobs && a !in assets && OriginalKey(id, ext) !in blobs
      requires used == StorageBytes(View(), user)
      modifies this
      ensures NoStrayAssets(View())
      ensures r == Verdict(l, limits, used) && View() == AfterStore(old(View()), user, id, a, ext, l, limits, used)
      ensures r == Created ==>
        var key := OriginalKey(id, ext);
        View() == Tables(old(jobs)[id := user], old(assets)[a := AssetRow(id, key, l.size)], old(blobs)[key := l.size])
      ensures r == Created && !l.exempt && limits.quotaBytes > 0 ==> StorageBytes(View(), user) <= limits.quotaBytes
      ensures r != Created && l.blobDropped && l.rowDropped ==> (View() == old(View()) <==> !l.put.Stranded?)
    {
      hide WithoutJob, StorageBytes, NoStrayAssets, OriginalKey, Verdict;
      OriginalKeyIsSet(id, ext);
      ghost var before := View();
      jobs := jobs[id := user];
      var key := OriginalKey(id, ext);
      if l.put.NotStored? {
        Rollback(id, "", l.blobDropped, l.rowDropped);
        NothingStored(before, user, id, View(), l.rowDropped);
        UnstoredIsInternal(l, limits, used);
        return Internal;
      }
      var size := l.size;
      blobs := blobs[key := size];
      if l.put.Stranded? {
        Rollback(id, "", l.blobDropped, l.rowDropped);
        Undone(before, user, id, key, size, View(), false, l.rowDropped);
        UnstoredIsInternal(l, limits, used);
        return Internal;
      }
      r := Inspect(size, l, used);
      if r != Created {
        Undo(user, id, key, size, l.blobDropped, l.rowDropped, before);
        return;
      }
      if !l.assetOk {
        Undo(user, id, key, size, l.blobDropped, l.rowDropped, before);
        return Internal;
      }
      assets := assets[a := AssetRow(id, key, size)];
      OneMoreAsset(before, View(), user, id, a, AssetRow(id, key, size));
    }

    /** The checks on what was actually stored. */
    method Inspect(size: nat, l: Luck, used: nat) returns (r: Outcome)
      ensures l.put.Stored? && l.size == size ==>
        Verdict(l, limits, used) == if r != Created then r else if !l.assetOk then Internal else Created
      ensures r == Created && !l.exempt && limits.quotaBytes > 0 ==> used + size <= limits.quotaBytes
    {
      if size == 0 {
        return EmptyFile;
      }
      if limits.maxBytes > 0 && size > limits.maxBytes {
        return FileTooLarge;
      }
      if !l.exempt && limits.quotaBytes > 0 && used + size > limits.quotaBytes {
        return StorageQuota;
      }
      r := if l.mediaOk then Created else CorruptMedia;
    }

    /** The rows go first, then the blobs that were listed; a blob in stuck cannot be deleted and
        stays behind as an orphan. Another account's job, a paid one and one being processed are
        refused and nothing changes. */
    method Delete(user: User, id: JobId, paid: bool, processing: bool, stuck: set<Key>) returns (r: Deletion)
      modifies this
      ensures r == if id !in old(jobs) || old(jobs)[id] != user then NotFound
                   else if paid then Paid else if processing then Busy else Deleted
      ensures r != Deleted ==> View() == old(View())
      ensures r == Deleted ==>
        View() == WithoutJob(old(View()), id).(blobs := old(blobs) - (KeysOf(old(View()), id) - stuck))
      // the job and its asset rows are gone, and with them each of its files that can be deleted
      ensures r == Deleted ==> jobs == old(jobs) - {id}
      ensures r == Deleted ==> forall a :: a in assets <==> a in old(assets) && old(assets)[a].job != id
      ensures r == Deleted ==> forall a :: a in assets ==> assets[a] == old(assets)[a]
      ensures r == Deleted ==> forall key :: key in blobs <==>
        && key in old(blobs)
        && (key in stuck || forall a :: a in old(assets) && old(assets)[a].key == key ==> old(assets)[a].job != id)
      ensures r == Deleted ==> forall key :: key in blobs ==> blobs[key] == old(blobs)[key]
    {
      if id !in jobs || jobs[id] != user {
        return NotFound;
      }
      if paid {
        return Paid;
      }
      var keys := KeysOf(View(), id);
      if processing {
        return Busy;
      }
      DeleteRow(id);
      ghost var was := View();
      var todo := keys;
      while todo != {}
        invariant todo <= keys
        invariant View() == was.(blobs := was.blobs - ((keys - todo) - stuck))
      {
        var key :| key in todo;
        if key !in stuck {
          blobs := blobs - {key};
        }
        todo := todo - {key};
      }
      assert keys - {} == keys;
      r := Deleted;
    }
  }

  datatype Deletion = Deleted | NotFound | Paid | Busy

  function KeysOf(t: Tables, id: JobId): set<Key> {
    set a | a in t.assets && t.assets[a].job == id :: t.assets[a].key
  }
}
