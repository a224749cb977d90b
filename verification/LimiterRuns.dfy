// What the limiter guarantees over whole runs - never too many - and exactly when a refusal is
// deserved.
module LimiterRuns {
  import opened LimiterSpec

  ghost function Bag(s: seq<Time>, c: Time): multiset<Time> {
    multiset(KeepAfter(s, c))
  }

  /** From cutoff c0 on, the list shows at least the admitted stamps. */
  ghost predicate ShowsAll(list: seq<Time>, stamps: seq<Time>, c0: Time) {
    forall c :: c0 <= c ==> Bag(stamps, c) <= Bag(list, c)
  }

  lemma BagConcat(a: seq<Time>, b: seq<Time>, c: Time)
    ensures Bag(a + b, c) == Bag(a, c) + Bag(b, c)
  {
    KeepConcat(a, b, c);
  }

  lemma SweepShowsAll(list: seq<Time>, stamps: seq<Time>, c0: Time)
    requires ShowsAll(list, stamps, c0)
    ensures ShowsAll(SweptOrGone(list, c0), stamps, c0)
  {
    forall c | c0 <= c ensures Bag(stamps, c) <= Bag(SweptOrGone(list, c0), c) {
      KeepSwept(list, c0, c);
      KeepTwice(list, c0, c);
      assert Bag(stamps, c) <= Bag(list, c);
    }
  }

  lemma RecordShowsAll(list: seq<Time>, stamps: seq<Time>, c0: Time, now: Time)
    requires ShowsAll(list, stamps, c0)
    ensures ShowsAll(KeepAfter(list, c0), stamps, c0)
    ensures ShowsAll(KeepAfter(list, c0) + [now], stamps + [now], c0)
  {
    forall c | c0 <= c
      ensures Bag(stamps, c) <= Bag(KeepAfter(list, c0), c)
      ensures Bag(stamps + [now], c) <= Bag(KeepAfter(list, c0) + [now], c)
    {
      assert Bag(stamps, c) <= Bag(list, c);
      KeepTwice(list, c0, c);
      BagConcat(stamps, [now], c);
      BagConcat(KeepAfter(list, c0), [now], c);
    }
  }

  lemma ShowsLess(list: seq<Time>, stamps: seq<Time>, c0: Time, c1: Time)
    requires ShowsAll(list, stamps, c0) && c0 <= c1
    ensures ShowsAll(list, stamps, c1)
  {
    forall c | c1 <= c ensures Bag(stamps, c) <= Bag(list, c) {
    }
  }

  /** The admitted stamps on a key after one more call. */
  function Stamped(cfg: Config, list: seq<Time>, c: Call, mine: bool, stamps: seq<Time>): seq<Time> {
    if mine && |KeepAfter(list, c.now - cfg.window)| < cfg.limit then stamps + [c.now] else stamps
  }

  lemma CallShowsAll(cfg: Config, list: seq<Time>, c: Call, mine: bool, sweeps: bool, stamps: seq<Time>)
    requires ShowsAll(list, stamps, c.now - cfg.window)
    ensures ShowsAll(ListAfter(cfg, list, c, mine, sweeps), Stamped(cfg, list, c, mine, stamps), c.now - cfg.window)
  {
    hide KeepAfter, ShowsAll, SweptOrGone;
    var c0 := c.now - cfg.window;
    RecordShowsAll(list, stamps, c0, c.now);
    if sweeps {
      SweepShowsAll(RecordedList(cfg, list, c, mine), Stamped(cfg, list, c, mine, stamps), c0);
    }
  }

  /** Every cutoff up to and including the n-th call's. */
  ghost predicate CutoffBefore(cfg: Config, calls: seq<Call>, n: nat, c: Time)
    requires n <= |calls|
  {
    n > 0 ==> calls[n - 1].now - cfg.window <= c
  }

  /** What one call of a run does to one key's list and to the admitted stamps. */
  lemma OneCall(cfg: Config, ss: seq<State>, calls: seq<Call>, key: Key, n: nat)
    requires IsRun(cfg, ss, calls) && n < |calls| && cfg.limit > 0
    ensures var list, c := ListOf(ss[n], key), calls[n];
      && ListOf(ss[n + 1], key) == ListAfter(cfg, list, c, c.key == key, Sweeps(cfg, ss[n], c))
      && Stamps(cfg, ss, calls, key, n + 1) == Stamped(cfg, list, c, c.key == key, Stamps(cfg, ss, calls, key, n))
      && CutoffBefore(cfg, calls, n, c.now - cfg.window)
  {
    hide KeepAfter, After, ListAfter;
    ListAfterCall(cfg, ss[n], calls[n], key);
  }

  lemma CutoffRises(cfg: Config, calls: seq<Call>, n: nat, c: Time)
    requires 0 < n <= |calls| && CutoffBefore(cfg, calls, n, c)
    ensures calls[n - 1].now - cfg.window <= c
  {
  }

  lemma RunShape(cfg: Config, ss: seq<State>, calls: seq<Call>)
    requires IsRun(cfg, ss, calls)
    ensures |ss| == |calls| + 1
  {
  }

  /** Despite compaction in place and sweeps of other keys' arrays, every list keeps showing at
      least the admitted calls still in the window. */
  lemma {:induction false} ListsShowAdmitted(cfg: Config, ss: seq<State>, calls: seq<Call>, key: Key, n: nat, c: Time)
    requires IsRun(cfg, ss, calls) && n <= |calls| && cfg.limit > 0
    requires CutoffBefore(cfg, calls, n, c)
    ensures ShowsAll(ListOf(ss[n], key), Stamps(cfg, ss, calls, key, n), c)
  {
    if n > 0 {
      var c0 := calls[n - 1].now - cfg.window;
      hide *;
      RunShape(cfg, ss, calls);
      CutoffRises(cfg, calls, n, c);
      OneCall(cfg, ss, calls, key, n - 1);
      ListsShowAdmitted(cfg, ss, calls, key, n - 1, c0);
      var list, call := ListOf(ss[n - 1], key), calls[n - 1];
      CallShowsAll(cfg, list, call, call.key == key, Sweeps(cfg, ss[n - 1], call), Stamps(cfg, ss, calls, key, n - 1));
      ShowsLess(ListOf(ss[n], key), Stamps(cfg, ss, calls, key, n), c0, c);
    }
  }

  lemma ShownCount(list: seq<Time>, stamps: seq<Time>, c: Time)
    requires ShowsAll(list, stamps, c)
    ensures |KeepAfter(stamps, c)| <= |KeepAfter(list, c)|
  {
    assert Bag(stamps, c) <= Bag(list, c);
    BagSizes(Bag(stamps, c), Bag(list, c));
  }

  lemma BagSizes(a: multiset<Time>, b: multiset<Time>)
    requires a <= b
    ensures |a| <= |b|
  {
    assert b == a + (b - a);
  }

  lemma AdmittedAreListed(cfg: Config, ss: seq<State>, calls: seq<Call>, key: Key, n: nat, c: Time)
    requires IsRun(cfg, ss, calls) && n <= |calls| && cfg.limit > 0
    requires CutoffBefore(cfg, calls, n, c)
    ensures |KeepAfter(Stamps(cfg, ss, calls, key, n), c)| <= |KeepAfter(ListOf(ss[n], key), c)|
  {
    ListsShowAdmitted(cfg, ss, calls, key, n, c);
    ShownCount(ListOf(ss[n], key), Stamps(cfg, ss, calls, key, n), c);
  }

  lemma RoomForOneMore(list: seq<Time>, stamps: seq<Time>, now: Time, c: Time, limit: int)
    requires |KeepAfter(stamps, c)| <= |KeepAfter(list, c)| < limit
    ensures |KeepAfter(stamps + [now], c)| <= limit
  {
    KeepConcat(stamps, [now], c);
    KeepOne(now, c);
  }

  lemma AdmissionFits(cfg: Config, ss: seq<State>, calls: seq<Call>, n: nat)
    requires IsRun(cfg, ss, calls) && n < |calls| && cfg.limit > 0 && Admits(cfg, ss[n], calls[n])
    ensures |KeepAfter(Stamps(cfg, ss, calls, calls[n].key, n) + [calls[n].now],
        calls[n].now - cfg.window)| <= cfg.limit
  {
    hide KeepAfter, After, Stamps;
    var c := calls[n];
    var c0, stamps := c.now - cfg.window, Stamps(cfg, ss, calls, c.key, n);
    assert CutoffBefore(cfg, calls, n, c0);
    AdmittedAreListed(cfg, ss, calls, c.key, n, c0);
    RoomForOneMore(ListOf(ss[n], c.key), stamps, c.now, c0, cfg.limit);
  }

  ghost predicate Fits(cfg: Config, stamps: seq<Time>, m: nat)
    requires 0 < m <= |stamps|
  {
    |KeepAfter(stamps[..m], stamps[m - 1] - cfg.window)| <= cfg.limit
  }

  lemma FitsInPrefix(cfg: Config, stamps: seq<Time>, longer: seq<Time>, m: nat)
    requires 0 < m <= |stamps| <= |longer| && longer[..|stamps|] == stamps && Fits(cfg, stamps, m)
    ensures Fits(cfg, longer, m)
  {
    assert longer[..m] == stamps[..m];
  }

  lemma LastFits(cfg: Config, ss: seq<State>, calls: seq<Call>, key: Key, n: nat)
    requires IsRun(cfg, ss, calls) && 0 < n <= |calls| && cfg.limit > 0
    requires calls[n - 1].key == key && Admits(cfg, ss[n - 1], calls[n - 1])
    ensures var st := Stamps(cfg, ss, calls, key, n);
      st != [] && Fits(cfg, st, |st|)
  {
    var st := Stamps(cfg, ss, calls, key, n);
    var before := Stamps(cfg, ss, calls, key, n - 1);
    assert st == before + [calls[n - 1].now] && st[..|st|] == st;
    AdmissionFits(cfg, ss, calls, n - 1);
  }

  lemma NoStampsYet(cfg: Config, ss: seq<State>, calls: seq<Call>, key: Key)
    requires |ss| == |calls| + 1
    ensures Stamps(cfg, ss, calls, key, 0) == []
  {
  }

  lemma OneStampMore(cfg: Config, ss: seq<State>, calls: seq<Call>, key: Key, n: nat)
    requires |ss| == |calls| + 1 && n < |calls|
    ensures var before, after := Stamps(cfg, ss, calls, key, n), Stamps(cfg, ss, calls, key, n + 1);
      && |before| <= |after| <= |before| + 1 && after[..|before|] == before
      && (|after| > |before| ==> calls[n].key == key && Admits(cfg, ss[n], calls[n]))
  {
    hide Admits;
  }

  /** Right after an admission at u, at most limit admitted calls are in (u - window, u]. */
  lemma {:induction false} EveryAdmissionFits(cfg: Config, ss: seq<State>, calls: seq<Call>, key: Key, n: nat, m: nat)
    requires IsRun(cfg, ss, calls) && n <= |calls| && cfg.limit > 0
    requires 0 < m <= |Stamps(cfg, ss, calls, key, n)|
    ensures Fits(cfg, Stamps(cfg, ss, calls, key, n), m)
  {
    hide *;
    RunShape(cfg, ss, calls);
    NoStampsYet(cfg, ss, calls, key);
    OneStampMore(cfg, ss, calls, key, n - 1);
    var st := Stamps(cfg, ss, calls, key, n);
    var before := Stamps(cfg, ss, calls, key, n - 1);
    if m <= |before| {
      EveryAdmissionFits(cfg, ss, calls, key, n - 1, m);
      FitsInPrefix(cfg, before, st, m);
    } else {
      LastFits(cfg, ss, calls, key, n);
    }
  }

  ghost predicate Sorted(s: seq<Time>) {
    forall i, j :: 0 <= i < j < |s| ==> s[i] <= s[j]
  }

  lemma {:induction false} StampsSorted(cfg: Config, ss: seq<State>, calls: seq<Call>, key: Key, n: nat)
    requires IsRun(cfg, ss, calls) && n <= |calls|
    ensures Sorted(Stamps(cfg, ss, calls, key, n))
    ensures forall t :: t in Stamps(cfg, ss, calls, key, n) ==> exists i :: 0 <= i < n && calls[i].now == t
  {
    if n > 0 {
      StampsSorted(cfg, ss, calls, key, n - 1);
      var before := Stamps(cfg, ss, calls, key, n - 1);
      forall i | 0 <= i < |before| ensures before[i] <= calls[n - 1].now {
        assert before[i] in before;
      }
    }
  }

  /** How many stamps lie in the half-open interval (lo, hi]. */
  function CountIn(s: seq<Time>, lo: Time, hi: Time): nat {
    if s == [] then 0 else CountIn(s[..|s| - 1], lo, hi) + (if lo < s[|s| - 1] <= hi then 1 else 0)
  }

  lemma {:induction false} CountIsKept(s: seq<Time>, lo: Time, hi: Time)
    requires forall i :: 0 <= i < |s| ==> s[i] <= hi
    ensures CountIn(s, lo, hi) == |KeepAfter(s, lo)|
  {
    if s != [] {
      CountIsKept(s[..|s| - 1], lo, hi);
    }
  }

  lemma {:induction false} KeepLess(s: seq<Time>, c: Time, d: Time)
    requires c <= d
    ensures |KeepAfter(s, d)| <= |KeepAfter(s, c)|
  {
    if s != [] {
      KeepLess(s[..|s| - 1], c, d);
    }
  }

  lemma {:induction false} WindowBound(cfg: Config, s: seq<Time>, lo: Time)
    requires Sorted(s) && cfg.limit > 0
    requires forall m :: 0 < m <= |s| ==> Fits(cfg, s, m)
    ensures CountIn(s, lo, lo + cfg.window) <= cfg.limit
  {
    if s != [] {
      var n := |s| - 1;
      if s[n] <= lo + cfg.window {
        CountIsKept(s, lo, lo + cfg.window);
        KeepLess(s, s[n] - cfg.window, lo);
        assert Fits(cfg, s, n + 1) && s[..n + 1] == s;
      } else {
        forall m | 0 < m <= n ensures Fits(cfg, s[..n], m) {
          assert Fits(cfg, s, m) && s[..n][..m] == s[..m];
        }
        WindowBound(cfg, s[..n], lo);
      }
    }
  }

  /** For every key and every run, every half-open interval as long as the window contains at
      most limit admitted calls. */
  lemma NeverTooMany(cfg: Config, ss: seq<State>, calls: seq<Call>, key: Key, lo: Time)
    requires IsRun(cfg, ss, calls) && cfg.limit > 0
    ensures CountIn(Stamps(cfg, ss, calls, key, |calls|), lo, lo + cfg.window) <= cfg.limit
  {
    var st := Stamps(cfg, ss, calls, key, |calls|);
    StampsSorted(cfg, ss, calls, key, |calls|);
    forall m | 0 < m <= |st| ensures Fits(cfg, st, m) {
      EveryAdmissionFits(cfg, ss, calls, key, |calls|, m);
    }
    WindowBound(cfg, st, lo);
  }

  /** A limiter with limit <= 0 admits everything and stores nothing. */
  lemma {:induction false} ZeroLimitDisables(cfg: Config, ss: seq<State>, calls: seq<Call>, n: nat)
    requires IsRun(cfg, ss, calls) && n <= |calls| && cfg.limit <= 0
    ensures ss[n] == EMPTY && (n < |calls| ==> Admits(cfg, ss[n], calls[n]))
  {
    if n > 0 {
      ZeroLimitDisables(cfg, ss, calls, n - 1);
    }
  }

  lemma CallKeepsShort(cfg: Config, list: seq<Time>, c: Call, mine: bool, sweeps: bool)
    requires cfg.limit > 0 && |list| <= cfg.limit
    ensures |ListAfter(cfg, list, c, mine, sweeps)| <= cfg.limit
  {
  }

  /** No list ever holds more than limit stamps. */
  lemma {:induction false} ListsAreShort(cfg: Config, ss: seq<State>, calls: seq<Call>, key: Key, n: nat)
    requires IsRun(cfg, ss, calls) && n <= |calls| && cfg.limit > 0
    ensures |ListOf(ss[n], key)| <= cfg.limit
  {
    if n > 0 {
      ListsAreShort(cfg, ss, calls, key, n - 1);
      var s, c := ss[n - 1], calls[n - 1];
      CallKeepsShort(cfg, ListOf(s, key), c, c.key == key, Sweeps(cfg, s, c));
      ListAfterCall(cfg, s, c, key);
    }
  }

  // --- when is a refusal deserved? ---------------------------------------------------------------

  /** The list has both stamps before the cutoff and stamps after it. */
  predicate Mixed(list: seq<Time>, c: Time) {
    0 < |KeepAfter(list, c)| < |list|
  }

  /** The call does not sweep, or its sweep meets no key with both stale and live stamps. */
  ghost predicate CleanSweep(cfg: Config, s: State, c: Call) {
    Sweeps(cfg, s, c) ==> forall k :: !Mixed(RecordedList(cfg, ListOf(s, k), c, c.key == k), c.now - cfg.window)
  }

  ghost predicate ShowsExactly(list: seq<Time>, stamps: seq<Time>, c0: Time) {
    forall c :: c0 <= c ==> KeepAfter(list, c) == KeepAfter(stamps, c)
  }

  lemma RecordShowsExactly(list: seq<Time>, stamps: seq<Time>, c0: Time, now: Time)
    requires ShowsExactly(list, stamps, c0)
    ensures ShowsExactly(KeepAfter(list, c0), stamps, c0)
    ensures ShowsExactly(KeepAfter(list, c0) + [now], stamps + [now], c0)
  {
    forall c | c0 <= c
      ensures KeepAfter(KeepAfter(list, c0), c) == KeepAfter(stamps, c)
      ensures KeepAfter(KeepAfter(list, c0) + [now], c) == KeepAfter(stamps + [now], c)
    {
      assert KeepAfter(list, c) == KeepAfter(stamps, c);
      KeepTwice(list, c0, c);
      KeepConcat(stamps, [now], c);
      KeepConcat(KeepAfter(list, c0), [now], c);
    }
  }

  lemma CleanSweepShowsExactly(list: seq<Time>, stamps: seq<Time>, c0: Time)
    requires ShowsExactly(list, stamps, c0) && !Mixed(list, c0)
    ensures ShowsExactly(SweptOrGone(list, c0), stamps, c0)
  {
    if KeepAfter(list, c0) == [] {
      forall c | c0 <= c ensures KeepAfter([], c) == KeepAfter(stamps, c) {
        assert KeepAfter(list, c) == KeepAfter(stamps, c);
        KeepTwice(list, c0, c);
      }
    } else {
      AllKept(list, c0);
      assert SweptList(list, c0) == list;
    }
  }

  lemma ShowsExactlyLater(list: seq<Time>, stamps: seq<Time>, c0: Time, c1: Time)
    requires ShowsExactly(list, stamps, c0) && c0 <= c1
    ensures ShowsExactly(list, stamps, c1)
  {
    forall c | c1 <= c ensures KeepAfter(list, c) == KeepAfter(stamps, c) {
    }
  }

  lemma RecordedShowsExactly(cfg: Config, list: seq<Time>, c: Call, mine: bool, stamps: seq<Time>)
    requires ShowsExactly(list, stamps, c.now - cfg.window)
    ensures ShowsExactly(RecordedList(cfg, list, c, mine), Stamped(cfg, list, c, mine, stamps), c.now - cfg.window)
  {
    hide KeepAfter, ShowsExactly;
    RecordShowsExactly(list, stamps, c.now - cfg.window, c.now);
  }

  lemma CallShowsExactly(cfg: Config, list: seq<Time>, c: Call, mine: bool, sweeps: bool, stamps: seq<Time>)
    requires ShowsExactly(list, stamps, c.now - cfg.window)
    requires sweeps ==> !Mixed(RecordedList(cfg, list, c, mine), c.now - cfg.window)
    ensures ShowsExactly(ListAfter(cfg, list, c, mine, sweeps), Stamped(cfg, list, c, mine, stamps), c.now - cfg.window)
  {
    hide KeepAfter, ShowsExactly, SweptOrGone, RecordedList, Stamped;
    RecordedShowsExactly(cfg, list, c, mine, stamps);
    if sweeps {
      CleanSweepShowsExactly(RecordedList(cfg, list, c, mine), Stamped(cfg, list, c, mine, stamps), c.now - cfg.window);
    }
  }

  lemma CleanCall(cfg: Config, s: State, c: Call, key: Key)
    requires CleanSweep(cfg, s, c) && Sweeps(cfg, s, c)
    ensures !Mixed(RecordedList(cfg, ListOf(s, key), c, c.key == key), c.now - cfg.window)
  {
    hide Mixed, RecordedList, Sweeps;
  }

  lemma {:induction false} CleanRunsAreExact(cfg: Config, ss: seq<State>, calls: seq<Call>, key: Key, n: nat, c: Time)
    requires IsRun(cfg, ss, calls) && n <= |calls| && cfg.limit > 0
    requires CutoffBefore(cfg, calls, n, c)
    requires forall i :: 0 <= i < n ==> CleanSweep(cfg, ss[i], calls[i])
    ensures ShowsExactly(ListOf(ss[n], key), Stamps(cfg, ss, calls, key, n), c)
  {
    if n > 0 {
      var c0 := calls[n - 1].now - cfg.window;
      hide *;
      RunShape(cfg, ss, calls);
      CutoffRises(cfg, calls, n, c);
      OneCall(cfg, ss, calls, key, n - 1);
      CleanRunsAreExact(cfg, ss, calls, key, n - 1, c0);
      var list, call := ListOf(ss[n - 1], key), calls[n - 1];
      assert CleanSweep(cfg, ss[n - 1], call);
      if Sweeps(cfg, ss[n - 1], call) {
        CleanCall(cfg, ss[n - 1], call, key);
      }
      CallShowsExactly(cfg, list, call, call.key == key, Sweeps(cfg, ss[n - 1], call),
          Stamps(cfg, ss, calls, key, n - 1));
      ShowsExactlyLater(ListOf(ss[n], key), Stamps(cfg, ss, calls, key, n), c0, c);
    }
  }

  lemma ExactlyTheAdmitted(cfg: Config, ss: seq<State>, calls: seq<Call>, key: Key, n: nat, c: Time)
    requires IsRun(cfg, ss, calls) && n <= |calls| && cfg.limit > 0
    requires CutoffBefore(cfg, calls, n, c)
    requires forall i :: 0 <= i < n ==> CleanSweep(cfg, ss[i], calls[i])
    ensures KeepAfter(ListOf(ss[n], key), c) == KeepAfter(Stamps(cfg, ss, calls, key, n), c)
  {
    CleanRunsAreExact(cfg, ss, calls, key, n, c);
  }

  lemma StampsBefore(cfg: Config, ss: seq<State>, calls: seq<Call>, key: Key, n: nat)
    requires IsRun(cfg, ss, calls) && n < |calls|
    ensures forall i :: 0 <= i < |Stamps(cfg, ss, calls, key, n)| ==> Stamps(cfg, ss, calls, key, n)[i] <= calls[n].now
  {
    StampsSorted(cfg, ss, calls, key, n);
    var stamps := Stamps(cfg, ss, calls, key, n);
    forall i | 0 <= i < |stamps| ensures stamps[i] <= calls[n].now {
      assert stamps[i] in stamps;
    }
  }

  lemma AdmitsByRoom(cfg: Config, s: State, c: Call, room: nat)
    requires cfg.limit > 0 && |KeepAfter(ListOf(s, c.key), c.now - cfg.window)| == room
    ensures Admits(cfg, s, c) <==> room < cfg.limit
  {
  }

  /** The admitted calls on the n-th call's key in (now - window, now]. */
  ghost function InWindow(cfg: Config, ss: seq<State>, calls: seq<Call>, n: nat): nat
    requires |ss| == |calls| + 1 && n < |calls|
  {
    CountIn(Stamps(cfg, ss, calls, calls[n].key, n), calls[n].now - cfg.window, calls[n].now)
  }

  lemma ListedInWindow(list: seq<Time>, stamps: seq<Time>, lo: Time, now: Time)
    requires KeepAfter(list, lo) == KeepAfter(stamps, lo)
    requires forall i :: 0 <= i < |stamps| ==> stamps[i] <= now
    ensures |KeepAfter(list, lo)| == CountIn(stamps, lo, now)
  {
    CountIsKept(stamps, lo, now);
  }

  lemma ListedIsInWindow(cfg: Config, ss: seq<State>, calls: seq<Call>, n: nat)
    requires IsRun(cfg, ss, calls) && n < |calls| && cfg.limit > 0
    requires forall i :: 0 <= i < n ==> CleanSweep(cfg, ss[i], calls[i])
    ensures |KeepAfter(ListOf(ss[n], calls[n].key), calls[n].now - cfg.window)| == InWindow(cfg, ss, calls, n)
  {
    var key, c0 := calls[n].key, calls[n].now - cfg.window;
    assert CutoffBefore(cfg, calls, n, c0);
    ExactlyTheAdmitted(cfg, ss, calls, key, n, c0);
    StampsBefore(cfg, ss, calls, key, n);
    ListedInWindow(ListOf(ss[n], key), Stamps(cfg, ss, calls, key, n), c0, calls[n].now);
  }

  /** While no sweep has met a key with both stale and live stamps, a call is admitted iff fewer
      than limit admitted calls on its key are in (now - window, now]. */
  lemma AdmittedIffRoom(cfg: Config, ss: seq<State>, calls: seq<Call>, n: nat)
    requires IsRun(cfg, ss, calls) && n < |calls| && cfg.limit > 0
    requires forall i :: 0 <= i < n ==> CleanSweep(cfg, ss[i], calls[i])
    ensures Admits(cfg, ss[n], calls[n]) <==> InWindow(cfg, ss, calls, n) < cfg.limit
  {
    ListedIsInWindow(cfg, ss, calls, n);
    AdmitsByRoom(cfg, ss[n], calls[n], InWindow(cfg, ss, calls, n));
  }

  /** A sweep leaves a sorted list showing what it should iff the list was not mixed: otherwise the
      tail of the old array shows a live stamp twice. */
  lemma SweepIsExactIff(list: seq<Time>, c: Time)
    requires Sorted(list) && KeepAfter(list, c) != []
    ensures KeepAfter(SweptList(list, c), c) == KeepAfter(list, c) <==> !Mixed(list, c)
  {
    var kept := KeepAfter(list, c);
    KeepSwept(list, c, c);
    var tail := list[|kept|..];
    if |kept| < |list| {
      KeptElements(list, c);
      assert kept[0] in list && kept[0] > c;
      var i :| 0 <= i < |list| && list[i] == kept[0];
      assert list[|list| - 1] >= list[i];
      assert tail[|tail| - 1] == list[|list| - 1];
      KeptElements(tail, c);
      assert tail[|tail| - 1] in tail;
      assert KeepAfter(tail, c) != [];
    } else {
      assert tail == [];
    }
  }

  ghost predicate SortedUpTo(list: seq<Time>, now: Time) {
    Sorted(list) && forall i :: 0 <= i < |list| ==> list[i] <= now
  }

  lemma {:induction false} KeepSorted(s: seq<Time>, c: Time, now: Time)
    requires SortedUpTo(s, now)
    ensures SortedUpTo(KeepAfter(s, c), now)
  {
    if s != [] {
      var n := |s| - 1;
      KeepSorted(s[..n], c, s[n]);
    }
  }

  lemma CleanSweepKeeps(list: seq<Time>, c: Time)
    requires !Mixed(list, c)
    ensures SweptOrGone(list, c) in {[], list}
  {
    AllKept(list, c);
    if KeepAfter(list, c) != [] {
      assert SweptList(list, c) == list;
    }
  }

  lemma CallKeepsSorted(cfg: Config, list: seq<Time>, c: Call, mine: bool, sweeps: bool)
    requires SortedUpTo(list, c.now)
    requires sweeps ==> !Mixed(RecordedList(cfg, list, c, mine), c.now - cfg.window)
    ensures SortedUpTo(RecordedList(cfg, list, c, mine), c.now)
    ensures SortedUpTo(ListAfter(cfg, list, c, mine, sweeps), c.now)
  {
    KeepSorted(list, c.now - cfg.window, c.now);
    if sweeps {
      CleanSweepKeeps(RecordedList(cfg, list, c, mine), c.now - cfg.window);
    }
  }

  lemma CallKeepsSortedIn(cfg: Config, s: State, c: Call, key: Key)
    requires cfg.limit > 0 && CleanSweep(cfg, s, c) && SortedUpTo(ListOf(s, key), c.now)
    ensures SortedUpTo(ListOf(After(cfg, s, c), key), c.now)
  {
    CallKeepsSorted(cfg, ListOf(s, key), c, c.key == key, Sweeps(cfg, s, c));
    ListAfterCall(cfg, s, c, key);
  }

  lemma SortedUpToLater(list: seq<Time>, now: Time, later: Time)
    requires SortedUpTo(list, now) && now <= later
    ensures SortedUpTo(list, later)
  {
  }

  lemma {:induction false} CleanListsSorted(cfg: Config, ss: seq<State>, calls: seq<Call>, key: Key, n: nat, now: Time)
    requires IsRun(cfg, ss, calls) && n <= |calls| && cfg.limit > 0
    requires n > 0 ==> calls[n - 1].now <= now
    requires forall i :: 0 <= i < n ==> CleanSweep(cfg, ss[i], calls[i])
    ensures SortedUpTo(ListOf(ss[n], key), now)
  {
    if n > 0 {
      var c := calls[n - 1];
      CleanListsSorted(cfg, ss, calls, key, n - 1, c.now);
      assert CleanSweep(cfg, ss[n - 1], c);
      CallKeepsSortedIn(cfg, ss[n - 1], c, key);
      SortedUpToLater(ListOf(ss[n], key), c.now, now);
    }
  }

  ghost predicate Exact(cfg: Config, ss: seq<State>, calls: seq<Call>, key: Key, n: nat)
    requires |ss| == |calls| + 1 && n < |calls|
  {
    ShowsExactly(ListOf(ss[n + 1], key), Stamps(cfg, ss, calls, key, n + 1), calls[n].now - cfg.window)
  }

  /** Sweeping this list shows a live stamp twice. */
  ghost predicate ShowsTwice(list: seq<Time>, c: Time) {
    KeepAfter(SweptOrGone(list, c), c) != KeepAfter(list, c)
  }

  lemma MixedShowsTwice(cfg: Config, list: seq<Time>, c: Call, mine: bool)
    requires SortedUpTo(list, c.now) && Mixed(RecordedList(cfg, list, c, mine), c.now - cfg.window)
    ensures ShowsTwice(RecordedList(cfg, list, c, mine), c.now - cfg.window)
  {
    CallKeepsSorted(cfg, list, c, mine, false);
    SweepIsExactIff(RecordedList(cfg, list, c, mine), c.now - cfg.window);
  }

  lemma TwiceIsInexact(list: seq<Time>, stamps: seq<Time>, c: Time)
    requires ShowsTwice(list, c) && ShowsExactly(list, stamps, c)
    ensures !ShowsExactly(SweptOrGone(list, c), stamps, c)
  {
    assert KeepAfter(list, c) == KeepAfter(stamps, c);
  }

  lemma MixedCallIsInexact(cfg: Config, list: seq<Time>, c: Call, mine: bool, stamps: seq<Time>)
    requires ShowsExactly(list, stamps, c.now - cfg.window)
    requires ShowsTwice(RecordedList(cfg, list, c, mine), c.now - cfg.window)
    ensures !ShowsExactly(ListAfter(cfg, list, c, mine, true), Stamped(cfg, list, c, mine, stamps), c.now - cfg.window)
  {
    hide KeepAfter, ShowsExactly, SweptOrGone, RecordedList, Stamped, ShowsTwice;
    RecordedShowsExactly(cfg, list, c, mine, stamps);
    TwiceIsInexact(RecordedList(cfg, list, c, mine), Stamped(cfg, list, c, mine, stamps), c.now - cfg.window);
  }

  lemma MixedSweepIsInexact(cfg: Config, ss: seq<State>, calls: seq<Call>, key: Key, n: nat)
    requires IsRun(cfg, ss, calls) && n < |calls| && cfg.limit > 0
    requires forall i :: 0 <= i < n ==> CleanSweep(cfg, ss[i], calls[i])
    requires Sweeps(cfg, ss[n], calls[n])
    requires Mixed(RecordedList(cfg, ListOf(ss[n], key), calls[n], calls[n].key == key), calls[n].now - cfg.window)
    ensures !Exact(cfg, ss, calls, key, n)
  {
    var c, list := calls[n], ListOf(ss[n], key);
    assert CutoffBefore(cfg, calls, n, c.now - cfg.window);
    CleanListsSorted(cfg, ss, calls, key, n, c.now);
    MixedShowsTwice(cfg, list, c, c.key == key);
    CleanRunsAreExact(cfg, ss, calls, key, n, c.now - cfg.window);
    MixedCallIsInexact(cfg, list, c, c.key == key, Stamps(cfg, ss, calls, key, n));
    ListAfterCall(cfg, ss[n], c, key);
  }

  lemma UncleanSweepIsInexact(cfg: Config, ss: seq<State>, calls: seq<Call>, n: nat)
    requires IsRun(cfg, ss, calls) && n < |calls| && cfg.limit > 0 && !CleanSweep(cfg, ss[n], calls[n])
    requires forall i :: 0 <= i < n ==> CleanSweep(cfg, ss[i], calls[i])
    ensures exists key :: !Exact(cfg, ss, calls, key, n)
  {
    hide KeepAfter, Mixed, RecordedList, After, Exact, Sweeps;
    var k :| Mixed(RecordedList(cfg, ListOf(ss[n], k), calls[n], calls[n].key == k), calls[n].now - cfg.window);
    MixedSweepIsInexact(cfg, ss, calls, k, n);
  }

  lemma CleanSweepIsExact(cfg: Config, ss: seq<State>, calls: seq<Call>, n: nat, key: Key)
    requires IsRun(cfg, ss, calls) && n < |calls| && cfg.limit > 0 && CleanSweep(cfg, ss[n], calls[n])
    requires forall i :: 0 <= i < n ==> CleanSweep(cfg, ss[i], calls[i])
    ensures Exact(cfg, ss, calls, key, n)
  {
    hide ShowsExactly, CleanSweep, After, ListOf, Stamps;
    CleanRunsAreExact(cfg, ss, calls, key, n + 1, calls[n].now - cfg.window);
  }

  /** The exact condition: as long as every sweep so far was clean, the lists go on showing just
      the admitted calls after the next call iff that call's sweep, too, meets no mixed list. */
  lemma ListsStayExactIff(cfg: Config, ss: seq<State>, calls: seq<Call>, n: nat)
    requires IsRun(cfg, ss, calls) && n < |calls| && cfg.limit > 0
    requires forall i :: 0 <= i < n ==> CleanSweep(cfg, ss[i], calls[i])
    ensures CleanSweep(cfg, ss[n], calls[n]) <==> forall key :: Exact(cfg, ss, calls, key, n)
  {
    RunShape(cfg, ss, calls);
    hide *;
    if CleanSweep(cfg, ss[n], calls[n]) {
      forall key ensures Exact(cfg, ss, calls, key, n) {
        CleanSweepIsExact(cfg, ss, calls, n, key);
      }
    } else {
      UncleanSweepIsInexact(cfg, ss, calls, n);
    }
  }
}
