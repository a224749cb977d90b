// The asset repository of internals/app/asset/repo.go, in place: listing oldest first, finding a
// job's asset of a kind, and recording a preview over the existing one.
module AssetRepository {
  import opened Basics
  import Listings

  type AssetId = string
  type JobId = string

  datatype Asset = Asset(id: AssetId, job: JobId, kind: Kind, key: string, createdAt: int)

  function IdOf(a: Asset): AssetId {
    a.id
  }

  function OfJob(job: JobId): Asset -> bool {
    (a: Asset) => a.job == job
  }

  function OldestFirst(a: Asset): int {
    a.createdAt
  }

  predicate Is(r: Asset, job: JobId, kind: Kind) {
    r.job == job && r.kind == kind
  }

  ghost predicate OnePreviewPerJob(rows: map<AssetId, Asset>) {
    forall a, b :: a in rows && b in rows && a != b && rows[a].kind.Preview? && rows[b].kind.Preview? ==>
      rows[a].job != rows[b].job
  }

  class AssetRepo {
    var rows: map<AssetId, Asset>

    constructor ()
      ensures rows == map[]
    {
      rows := map[];
    }

    method Create(a: Asset, id: AssetId, at: int)
      requires id !in rows
      modifies this
      ensures rows == old(rows)[id := a.(id := id, createdAt := at)]
    {
      rows := rows[id := a.(id := id, createdAt := at)];
    }

    method ListByJob(job: JobId) returns (list: seq<Asset>)
      requires Listings.WellKeyed(rows, IdOf)
      ensures Listings.Lists(rows, IdOf, OfJob(job), OldestFirst, rows.Keys, list)
    {
      list := Listings.SelectSorted(rows, IdOf, OfJob(job), OldestFirst);
    }

    /** The job's oldest asset of the kind, or none when it has none. */
    method GetByJobAndKind(job: JobId, kind: Kind) returns (a: Option<Asset>)
      requires Listings.WellKeyed(rows, IdOf)
      ensures a.Some? ==> a.value.id in rows && rows[a.value.id] == a.value && Is(a.value, job, kind)
      ensures a.Some? ==> forall id :: id in rows && Is(rows[id], job, kind) ==> a.value.createdAt <= rows[id].createdAt
      ensures a.None? ==> forall id :: id in rows ==> !Is(rows[id], job, kind)
    {
      var list := ListByJob(job);
      for i := 0 to |list|
        invariant forall k :: 0 <= k < i ==> list[k].kind != kind
      {
        if list[i].kind == kind {
          forall id | id in rows && Is(rows[id], job, kind) ensures list[i].createdAt <= rows[id].createdAt {
            var k :| 0 <= k < |list| && list[k] == rows[id];
          }
          return Some(list[i]);
        }
      }
      a := None;
    }

    /** Over an existing preview the row keeps its id and its creation time; otherwise there is one
        new row. A job that had at most one preview has exactly this one. */
    method UpsertPreview(a: Asset, newId: AssetId, at: int) returns (id: AssetId)
      requires Listings.WellKeyed(rows, IdOf) && newId !in rows
      modifies this
      ensures Listings.WellKeyed(rows, IdOf) && id in rows && rows[id].key == a.key && Is(rows[id], a.job, Preview)
      ensures if exists x :: x in old(rows) && Is(old(rows)[x], a.job, Preview)
              then id in old(rows) && Is(old(rows)[id], a.job, Preview) && rows[id].createdAt == old(rows)[id].createdAt
              else id == newId
      ensures forall x :: x != id ==> (x in rows <==> x in old(rows)) && (x in rows ==> rows[x] == old(rows)[x])
      ensures OnePreviewPerJob(old(rows)) ==> OnePreviewPerJob(rows)
      ensures OnePreviewPerJob(old(rows)) ==> forall x :: x in rows && Is(rows[x], a.job, Preview) ==> x == id
    {
      var p := a.(kind := Preview);
      var existing := GetByJobAndKind(a.job, Preview);
      if existing.None? {
        Create(p, newId, at);
        return newId;
      }
      id := existing.value.id;
      p := p.(id := id, createdAt := existing.value.createdAt);
      rows := rows[id := p];
      assert Is(old(rows)[id], a.job, Preview);
    }
  }
}
