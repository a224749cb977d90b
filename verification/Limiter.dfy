// The limiter object of internals/ratelimit/limiter.go: slices over backing arrays that keepAfter
// compacts in place and append may or may not reallocate.
module Limiter {
  import opened Basics
  import opened LimiterSpec

  /** A slice starting at the front of its backing array. */
  datatype Slice = Slice(arr: array<Time>, len: nat)

  ghost predicate Shows(s: Slice, list: seq<Time>)
    reads s.arr
  {
    s.len <= s.arr.Length && s.arr[..s.len] == list
  }

  method KeepAfterInPlace(arr: array<Time>, len: nat, cutoff: Time) returns (n: nat)
    requires len <= arr.Length
    modifies arr
    ensures n <= len
    ensures arr[..n] == KeepAfter(old(arr[..len]), cutoff)
    ensures arr[n..] == old(arr[n..])
  {
    n := 0;
    for i := 0 to len
      invariant n <= i
      invariant arr[..n] == KeepAfter(old(arr[..i]), cutoff)
      invariant arr[n..] == old(arr[n..])
    {
      assert arr[i] == arr[n..][i - n] == old(arr[i]);
      assert old(arr[..i + 1])[..i] == old(arr[..i]);
      if arr[i] > cutoff {
        ghost var kept := arr[..n];
        arr[n] := arr[i];
        assert arr[..n + 1] == kept + [old(arr[i])];
        n := n + 1;
      }
    }
  }

  lemma SweptInPlace(now: seq<Time>, list: seq<Time>, n: nat, cutoff: Time)
    requires n <= |list| <= |now| && now[..n] == KeepAfter(list, cutoff) && now[n..|list|] == list[n..]
    ensures now[..|list|] == SweptList(list, cutoff)
  {
  }

  /** Midway through sweep: the keys in todo are as they were, the others swept or gone. */
  ghost predicate SweptSoFar(was: map<Key, seq<Time>>, now: map<Key, seq<Time>>, todo: set<Key>, cutoff: Time) {
    && (forall k :: k in todo ==> k in was && k in now && now[k] == was[k])
    && (forall k :: k in now && k !in todo ==> k in SweepLists(was, cutoff) && now[k] == SweepLists(was, cutoff)[k])
    && (forall k :: k in was && KeepAfter(was[k], cutoff) != [] ==> k in now)
  }

  function DroppedOrSwept(m: map<Key, seq<Time>>, key: Key, cutoff: Time): map<Key, seq<Time>>
    requires key in m
  {
    if KeepAfter(m[key], cutoff) == [] then m - {key} else m[key := SweptList(m[key], cutoff)]
  }

  lemma SweptOneMore(was: map<Key, seq<Time>>, before: map<Key, seq<Time>>, todo: set<Key>, key: Key, cutoff: Time)
    requires SweptSoFar(was, before, todo, cutoff) && key in todo
    ensures SweptSoFar(was, DroppedOrSwept(before, key, cutoff), todo - {key}, cutoff)
  {
  }

  lemma SweptAtLast(was: map<Key, seq<Time>>, now: map<Key, seq<Time>>, cutoff: Time)
    requires SweptSoFar(was, now, {}, cutoff)
    ensures now == SweepLists(was, cutoff)
  {
  }

  lemma SameButOne(m: map<Key, seq<Time>>, n: map<Key, seq<Time>>, key: Key, list: seq<Time>)
    requires m - {key} == n - {key}
    ensures m[key := list] == n[key := list]
  {
    assert m[key := list] == (m - {key})[key := list];
    assert n[key := list] == (n - {key})[key := list];
  }

  /** Go's append: in place while there is room, otherwise into a larger copy of any capacity. */
  method Append(s: Slice, t: Time) returns (r: Slice)
    requires s.len <= s.arr.Length
    modifies s.arr
    ensures Shows(r, old(s.arr[..s.len]) + [t])
    ensures r.arr == s.arr || (fresh(r.arr) && s.arr[..] == old(s.arr[..]))
  {
    if s.len < s.arr.Length {
      s.arr[s.len] := t;
      r := Slice(s.arr, s.len + 1);
    } else {
      var cap: nat :| cap > s.len;
      var bigger := new Time[cap];
      forall i | 0 <= i < s.len {
        bigger[i] := s.arr[i];
      }
      bigger[s.len] := t;
      r := Slice(bigger, s.len + 1);
    }
  }

  /** What sweep does: nothing until a window has passed since the last one. */
  function Swept(cfg: Config, s: State, cutoff: Time, since: Time, again: Time): State {
    if s.sweptAt.Some? && since - s.sweptAt.value < cfg.window then s
    else State(SweepLists(s.lists, cutoff), Some(again))
  }

  lemma AdmittedThenSwept(cfg: Config, s: State, c: Call, mid: State)
    requires cfg.limit > 0 && Admits(cfg, s, c) && mid == State(Recorded(cfg, s, c), s.sweptAt)
    ensures After(cfg, s, c) == Swept(cfg, mid, c.now - cfg.window, c.since, c.again)
  {
    hide KeepAfter, SweepLists, Recorded, Kept;
  }

  lemma RefusedThenKept(cfg: Config, s: State, c: Call, mid: State)
    requires cfg.limit > 0 && !Admits(cfg, s, c) && mid == State(Recorded(cfg, s, c), s.sweptAt)
    ensures After(cfg, s, c) == mid
  {
    hide KeepAfter, SweepLists, Recorded, Kept;
  }

  lemma DisabledKeeps(cfg: Config, s: State, c: Call)
    requires cfg.limit <= 0
    ensures Admits(cfg, s, c) && After(cfg, s, c) == s
  {
  }

  class Limiter {
    const cfg: Config
    var hits: map<Key, Slice>
    var sweptAt: Option<Time>
    ghost var lists: map<Key, seq<Time>>
    ghost var owner: map<array<Time>, Key>

    /** Every key but one has a slice that shows its list, in an array of its own. */
    ghost predicate ValidBut(key: Key)
      reads this, owner.Keys
    {
      && hits.Keys == lists.Keys
      && (forall k :: k in hits ==> hits[k].arr in owner && owner[hits[k].arr] == k)
      && (forall k :: k in hits && k != key ==> Shows(hits[k], lists[k]))
    }

    ghost predicate Valid()
      reads this, owner.Keys
    {
      && hits.Keys == lists.Keys
      && (forall k :: k in hits ==> hits[k].arr in owner && owner[hits[k].arr] == k)
      && (forall k :: k in hits ==> Shows(hits[k], lists[k]))
    }

    ghost function View(): State
      reads this
    {
      State(lists, sweptAt)
    }

    constructor (limit: int, window: Time)
      ensures Valid() && fresh(owner.Keys) && View() == EMPTY && cfg == Config(limit, window)
    {
      cfg := Config(limit, window);
      hits, lists := map[], map[];
      sweptAt := None;
      owner := map[];
    }

    /** Compact one key's array without storing the shortened slice. */
    method Compact(key: Key, cutoff: Time) returns (n: nat)
      requires Valid() && key in hits
      modifies this`lists, hits[key].arr
      ensures Valid() && lists == old(lists)[key := SweptList(old(lists[key]), cutoff)]
      ensures Shows(Slice(hits[key].arr, n), KeepAfter(old(lists[key]), cutoff))
    {
      var s := hits[key];
      n := KeepAfterInPlace(s.arr, s.len, cutoff);
      SweptInPlace(s.arr[..], lists[key], n, cutoff);
      lists := lists[key := SweptList(lists[key], cutoff)];
    }

    /** Point key at a slice of its own array or of a fresh one. */
    method Store(key: Key, s: Slice, ghost list: seq<Time>)
      requires ValidBut(key) && Shows(s, list) && (s.arr in owner ==> owner[s.arr] == key)
      modifies this`hits, this`lists, this`owner
      ensures Valid() && owner == old(owner)[s.arr := key] && lists == old(lists)[key := list]
    {
      hits := hits[key := s];
      lists := lists[key := list];
      owner := owner[s.arr := key];
    }

    /** The stamps of key after the cutoff, in its own compacted array or an empty one. */
    method Kept(key: Key, cutoff: Time) returns (s: Slice)
      requires Valid()
      modifies this`lists, owner.Keys
      ensures Valid() && Shows(s, KeepAfter(old(ListOf(View(), key)), cutoff))
      ensures if s.arr in owner then owner[s.arr] == key else fresh(s.arr)
      ensures lists - {key} == old(lists) - {key}
    {
      if key in hits {
        var n := Compact(key, cutoff);
        s := Slice(hits[key].arr, n);
      } else {
        var none := new Time[0];
        s := Slice(none, 0);
      }
    }

    method AppendAndStore(key: Key, s: Slice, now: Time, ghost list: seq<Time>)
      requires Valid() && Shows(s, list) && (s.arr in owner ==> owner[s.arr] == key)
      modifies this`hits, this`lists, this`owner, s.arr
      ensures Valid() && fresh(owner.Keys - old(owner.Keys) - {s.arr})
      ensures lists == old(lists)[key := list + [now]]
    {
      var longer := Append(s, now);
      Store(key, longer, list + [now]);
    }

    /** The guarded half of Allow: compact the key's list, and append now if there is room. */
    method Record(key: Key, now: Time, ghost c: Call) returns (ok: bool)
      requires Valid() && cfg.limit > 0 && c.key == key && c.now == now
      modifies this`hits, this`lists, this`owner, owner.Keys
      ensures Valid() && fresh(owner.Keys - old(owner.Keys))
      ensures ok == Admits(cfg, old(View()), c)
      ensures lists == Recorded(cfg, old(View()), c)
    {
      ghost var was, kept := lists, LimiterSpec.Kept(cfg, View(), c);
      var s := Kept(key, now - cfg.window);
      ghost var list := if s.len >= cfg.limit then kept else kept + [now];
      SameButOne(was, lists, key, list);
      if s.len >= cfg.limit {
        Store(key, s, kept);
        ok := false;
      } else {
        AppendAndStore(key, s, now, kept);
        ok := true;
      }
    }

    /** Drop the key if nothing of its list is left after the cutoff; otherwise its list keeps its
        length and shows the kept stamps followed by its old tail. */
    method CompactOrDrop(key: Key, cutoff: Time)
      requires Valid() && key in hits
      modifies this`hits, this`lists, hits[key].arr
      ensures Valid()
      ensures lists == DroppedOrSwept(old(lists), key, cutoff)
    {
      hide KeepAfter, SweptList;
      var n := Compact(key, cutoff);
      if n == 0 {
        hits, lists := hits - {key}, lists - {key};
      }
    }

    /** The loop of sweep, over the keys in any order. */
    method SweepAll(cutoff: Time)
      requires Valid()
      modifies this`hits, this`lists, owner.Keys
      ensures Valid() && lists == SweepLists(old(lists), cutoff)
    {
      ghost var was := lists;
      var todo := hits.Keys;
      while todo != {}
        invariant Valid() && todo <= hits.Keys
        invariant SweptSoFar(was, lists, todo, cutoff)
      {
        var k :| k in todo;
        ghost var before := lists;
        CompactOrDrop(k, cutoff);
        SweptOneMore(was, before, todo, k, cutoff);
        todo := todo - {k};
      }
      SweptAtLast(was, lists, cutoff);
    }

    method Sweep(cutoff: Time, since: Time, again: Time)
      requires Valid()
      modifies this`hits, this`lists, this`sweptAt, owner.Keys
      ensures Valid() && View() == Swept(cfg, old(View()), cutoff, since, again)
    {
      if sweptAt.Some? && since - sweptAt.value < cfg.window {
        return;
      }
      sweptAt := Some(again);
      SweepAll(cutoff);
    }

    /** One call: now is read before the lock, since and again are sweep's two clock readings. */
    method Allow(key: Key, now: Time, since: Time, again: Time) returns (ok: bool)
      requires Valid()
      modifies this, owner.Keys
      ensures Valid() && fresh(owner.Keys - old(owner.Keys))
      ensures ok == Admits(cfg, old(View()), Call(key, now, since, again))
      ensures View() == After(cfg, old(View()), Call(key, now, since, again))
    {
      hide KeepAfter, Recorded, SweepLists, Sweeps, After, Admits, Swept, LimiterSpec.Kept;
      ghost var before, call := View(), Call(key, now, since, again);
      if cfg.limit <= 0 {
        DisabledKeeps(cfg, before, call);
        return true;
      }
      ok := Record(key, now, call);
      if !ok {
        RefusedThenKept(cfg, before, call, View());
      } else {
        AdmittedThenSwept(cfg, before, call, View());
        Sweep(now - cfg.window, since, again);
      }
    }
  }
}
