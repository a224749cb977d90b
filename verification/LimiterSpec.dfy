// The sliding-window limiter of internals/ratelimit/limiter.go on values: per-key lists of stamps.
// sweep compacts other keys' backing arrays without storing the shortened slice, so a swept list
// is its kept stamps followed by what the old tail still shows.
module LimiterSpec {
  import opened Basics

  type Key = string
  type Time = int

  /** hits and sweptAt; None is the zero time, further back than any window. */
  datatype State = State(lists: map<Key, seq<Time>>, sweptAt: Option<Time>)

  /** One Allow: now is read before the lock; since and again are the clock readings in sweep. */
  datatype Call = Call(key: Key, now: Time, since: Time, again: Time)

  datatype Config = Config(limit: int, window: Time)

  function KeepAfter(s: seq<Time>, cutoff: Time): (r: seq<Time>)
    ensures |r| <= |s|
  {
    if s == [] then []
    else KeepAfter(s[..|s| - 1], cutoff) + (if s[|s| - 1] > cutoff then [s[|s| - 1]] else [])
  }

  function SweptList(s: seq<Time>, cutoff: Time): seq<Time> {
    var kept := KeepAfter(s, cutoff);
    kept + s[|kept|..]
  }

  function SweepLists(m: map<Key, seq<Time>>, cutoff: Time): map<Key, seq<Time>> {
    map k | k in m && KeepAfter(m[k], cutoff) != [] :: SweptList(m[k], cutoff)
  }

  function ListOf(s: State, key: Key): seq<Time> {
    if key in s.lists then s.lists[key] else []
  }

  function Kept(cfg: Config, s: State, c: Call): seq<Time> {
    KeepAfter(ListOf(s, c.key), c.now - cfg.window)
  }

  predicate Admits(cfg: Config, s: State, c: Call) {
    cfg.limit <= 0 || |Kept(cfg, s, c)| < cfg.limit
  }

  predicate Sweeps(cfg: Config, s: State, c: Call) {
    cfg.limit > 0 && Admits(cfg, s, c) && (s.sweptAt.Some? ==> c.since - s.sweptAt.value >= cfg.window)
  }

  /** The lists once the call is recorded and before any sweep. */
  function Recorded(cfg: Config, s: State, c: Call): map<Key, seq<Time>> {
    if cfg.limit <= 0 then s.lists
    else if Admits(cfg, s, c) then s.lists[c.key := Kept(cfg, s, c) + [c.now]]
    else s.lists[c.key := Kept(cfg, s, c)]
  }

  function After(cfg: Config, s: State, c: Call): State {
    if Sweeps(cfg, s, c) then State(SweepLists(Recorded(cfg, s, c), c.now - cfg.window), Some(c.again))
    else State(Recorded(cfg, s, c), s.sweptAt)
  }

  function SweptOrGone(list: seq<Time>, cutoff: Time): seq<Time> {
    if KeepAfter(list, cutoff) == [] then [] else SweptList(list, cutoff)
  }

  /** One key's list once a call - on this key or another - is recorded, before any sweep. */
  function RecordedList(cfg: Config, list: seq<Time>, c: Call, mine: bool): seq<Time> {
    var kept := KeepAfter(list, c.now - cfg.window);
    if !mine then list else if |kept| < cfg.limit then kept + [c.now] else kept
  }

  function ListAfter(cfg: Config, list: seq<Time>, c: Call, mine: bool, sweeps: bool): seq<Time> {
    var mid := RecordedList(cfg, list, c, mine);
    if sweeps then SweptOrGone(mid, c.now - cfg.window) else mid
  }

  lemma ListAfterCall(cfg: Config, s: State, c: Call, key: Key)
    requires cfg.limit > 0
    ensures ListOf(After(cfg, s, c), key) == ListAfter(cfg, ListOf(s, key), c, c.key == key, Sweeps(cfg, s, c))
  {
    var rec := Recorded(cfg, s, c);
    assert ListOf(State(rec, None), key) == RecordedList(cfg, ListOf(s, key), c, c.key == key);
    if Sweeps(cfg, s, c) && key !in rec {
      assert SweptOrGone([], c.now - cfg.window) == [];
    }
  }

  // --- the sweep ------------------------------------------------------------------------------------

  /** Only an admitted call sweeps, exactly if no sweep came before or the last was a window ago; it
      notes when it did, and no other call touches that note. */
  lemma SweepsWhenDue(cfg: Config, s: State, c: Call)
    ensures After(cfg, s, c).sweptAt ==
      if cfg.limit > 0 && Admits(cfg, s, c) && (s.sweptAt.None? || s.sweptAt.value + cfg.window <= c.since) then
        Some(c.again)
      else s.sweptAt
  {
  }

  lemma NothingAfter(list: seq<Time>, cutoff: Time)
    ensures KeepAfter(list, cutoff) == [] <==> forall t :: t in list ==> t <= cutoff
  {
    KeptElements(list, cutoff);
    var kept := KeepAfter(list, cutoff);
    if kept != [] {
      var t := kept[0];
      assert t in kept;
      assert t in list && t > cutoff;
    } else {
      forall t | t in list ensures t <= cutoff {
        assert t !in kept;
      }
    }
  }

  /** A sweep forgets exactly the keys with no stamp after the cutoff. */
  lemma SweepForgetsStaleKeys(m: map<Key, seq<Time>>, cutoff: Time, k: Key)
    ensures k in SweepLists(m, cutoff) <==> k in m && exists t :: t in m[k] && t > cutoff
  {
    if k in m {
      NothingAfter(m[k], cutoff);
    }
  }

  const EMPTY := State(map[], None)

  /** Calls from a fresh limiter, with stamps that do not go back in lock order. */
  ghost predicate IsRun(cfg: Config, ss: seq<State>, calls: seq<Call>) {
    && |ss| == |calls| + 1 && ss[0] == EMPTY
    && (forall i :: 0 <= i < |calls| ==> ss[i + 1] == After(cfg, ss[i], calls[i]))
    && (forall i, j :: 0 <= i < j < |calls| ==> calls[i].now <= calls[j].now)
  }

  /** The stamps of the admitted calls on key among the first n. */
  function Stamps(cfg: Config, ss: seq<State>, calls: seq<Call>, key: Key, n: nat): seq<Time>
    requires |ss| == |calls| + 1 && n <= |calls|
  {
    if n == 0 then []
    else
      var rest := Stamps(cfg, ss, calls, key, n - 1);
      if calls[n - 1].key == key && Admits(cfg, ss[n - 1], calls[n - 1]) then rest + [calls[n - 1].now] else rest
  }

  // --- filtering ----------------------------------------------------------------------------------

  lemma {:induction false} KeepConcat(a: seq<Time>, b: seq<Time>, c: Time)
    ensures KeepAfter(a + b, c) == KeepAfter(a, c) + KeepAfter(b, c)
  {
    if b == [] {
      assert a + b == a;
    } else {
      var n := |b| - 1;
      assert (a + b)[..|a + b| - 1] == a + b[..n];
      KeepConcat(a, b[..n], c);
    }
  }

  lemma {:induction false} KeepTwice(s: seq<Time>, c0: Time, c: Time)
    requires c0 <= c
    ensures KeepAfter(KeepAfter(s, c0), c) == KeepAfter(s, c)
  {
    if s != [] {
      var n := |s| - 1;
      KeepTwice(s[..n], c0, c);
      var last := if s[n] > c0 then [s[n]] else [];
      KeepConcat(KeepAfter(s[..n], c0), last, c);
      assert s[n] > c0 ==> [s[n]][..0] == [];
    }
  }

  lemma KeepOne(t: Time, c: Time)
    ensures KeepAfter([t], c) == if t > c then [t] else []
  {
    assert [t][..0] == [];
  }

  lemma KeepSwept(s: seq<Time>, c0: Time, c: Time)
    requires c0 <= c
    ensures KeepAfter(SweptList(s, c0), c) == KeepAfter(s, c) + KeepAfter(s[|KeepAfter(s, c0)|..], c)
  {
    KeepConcat(KeepAfter(s, c0), s[|KeepAfter(s, c0)|..], c);
    KeepTwice(s, c0, c);
  }

  lemma {:induction false} KeptElements(s: seq<Time>, c: Time)
    ensures forall t :: t in KeepAfter(s, c) <==> t in s && t > c
  {
    if s != [] {
      var n := |s| - 1;
      KeptElements(s[..n], c);
      assert forall t :: t in s <==> t in s[..n] || t == s[n];
    }
  }

  lemma {:induction false} AllKept(s: seq<Time>, c: Time)
    ensures |KeepAfter(s, c)| == |s| <==> forall i :: 0 <= i < |s| ==> s[i] > c
    ensures |KeepAfter(s, c)| == |s| ==> KeepAfter(s, c) == s
  {
    if s != [] {
      var n := |s| - 1;
      AllKept(s[..n], c);
      assert s == s[..n] + [s[n]];
    }
  }
}
