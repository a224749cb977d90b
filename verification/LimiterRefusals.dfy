// Exactly when the limiter refuses only callers who have used up their limit: over all runs, a
// sweep that meets a list with both stale and live stamps - and no other - can be followed by a
// refusal of a key with room left.
module LimiterRefusals {
  import opened LimiterSpec
  import opened LimiterRuns

  /** The m-th call is refused although fewer than limit admitted calls are in its window. */
  ghost predicate WrongRefusal(cfg: Config, ss: seq<State>, calls: seq<Call>, m: nat)
    requires |ss| == |calls| + 1 && m < |calls|
  {
    !Admits(cfg, ss[m], calls[m]) && InWindow(cfg, ss, calls, m) < cfg.limit
  }

  /** One run goes on where the other stops. */
  ghost predicate Continues(ss: seq<State>, calls: seq<Call>, longer: seq<State>, more: seq<Call>) {
    ss <= longer && calls <= more
  }

  ghost predicate CleanFrom(cfg: Config, ss: seq<State>, calls: seq<Call>, n: nat)
    requires |ss| == |calls| + 1
  {
    forall i :: n <= i < |calls| ==> CleanSweep(cfg, ss[i], calls[i])
  }

  /** How many stamps of key the limiter sees as live after the run. */
  ghost function Live(cfg: Config, ss: seq<State>, calls: seq<Call>, key: Key, now: Time): nat
    requires |ss| == |calls| + 1
  {
    |KeepAfter(ListOf(ss[|calls|], key), now - cfg.window)|
  }

  /** How many admitted calls of key really are in the window after the run. */
  ghost function InFact(cfg: Config, ss: seq<State>, calls: seq<Call>, key: Key, now: Time): nat
    requires |ss| == |calls| + 1
  {
    |KeepAfter(Stamps(cfg, ss, calls, key, |calls|), now - cfg.window)|
  }

  // --- building a continuation ----------------------------------------------------------------------

  lemma {:induction false} SameStamps(cfg: Config, ss: seq<State>, calls: seq<Call>, longer: seq<State>,
                                      more: seq<Call>, key: Key, n: nat)
    requires |ss| == |calls| + 1 && |longer| == |more| + 1 && Continues(ss, calls, longer, more) && n <= |calls|
    ensures Stamps(cfg, longer, more, key, n) == Stamps(cfg, ss, calls, key, n)
  {
    hide Admits;
    if n > 0 {
      SameStamps(cfg, ss, calls, longer, more, key, n - 1);
      assert longer[n - 1] == ss[n - 1] && more[n - 1] == calls[n - 1];
    }
  }

  lemma OneCallMore(cfg: Config, ss: seq<State>, calls: seq<Call>, c: Call)
    requires IsRun(cfg, ss, calls) && calls != [] && calls[|calls| - 1].now <= c.now
    ensures IsRun(cfg, ss + [After(cfg, ss[|calls|], c)], calls + [c])
  {
    hide After;
    var longer, more := ss + [After(cfg, ss[|calls|], c)], calls + [c];
    forall i | 0 <= i < |more| ensures longer[i + 1] == After(cfg, longer[i], more[i]) {
      if i < |calls| {
        assert longer[i] == ss[i] && longer[i + 1] == ss[i + 1] && more[i] == calls[i];
      }
    }
    forall i, j | 0 <= i < j < |more| ensures more[i].now <= more[j].now {
      if i < |calls| - 1 {
        assert calls[i].now <= calls[|calls| - 1].now;
      }
    }
  }

  /** A call on key in the very instant of the last sweep: it does not sweep. */
  function Again(s: State, key: Key, now: Time): Call
    requires s.sweptAt.Some?
  {
    Call(key, now, s.sweptAt.value, s.sweptAt.value)
  }

  lemma NoSweepAgain(cfg: Config, s: State, key: Key, now: Time)
    requires s.sweptAt.Some? && cfg.window > 0 && cfg.limit > 0
    ensures !Sweeps(cfg, s, Again(s, key, now)) && CleanSweep(cfg, s, Again(s, key, now))
    ensures After(cfg, s, Again(s, key, now)).sweptAt == s.sweptAt
  {
    hide KeepAfter;
  }

  lemma KeepsLive(list: seq<Time>, now: Time, c: Time)
    requires now > c
    ensures |KeepAfter(KeepAfter(list, c) + [now], c)| == |KeepAfter(list, c)| + 1
  {
    KeepTwice(list, c, c);
    KeepConcat(KeepAfter(list, c), [now], c);
    KeepOne(now, c);
  }

  lemma KeepsOneMore(stamps: seq<Time>, now: Time, c: Time)
    requires now > c
    ensures |KeepAfter(stamps + [now], c)| == |KeepAfter(stamps, c)| + 1
  {
    KeepConcat(stamps, [now], c);
    KeepOne(now, c);
  }

  lemma AdmittedList(cfg: Config, s: State, key: Key, now: Time)
    requires s.sweptAt.Some? && cfg.window > 0 && cfg.limit > 0
    requires |KeepAfter(ListOf(s, key), now - cfg.window)| < cfg.limit
    ensures Admits(cfg, s, Again(s, key, now))
    ensures ListOf(After(cfg, s, Again(s, key, now)), key) == KeepAfter(ListOf(s, key), now - cfg.window) + [now]
  {
    hide KeepAfter;
    NoSweepAgain(cfg, s, key, now);
    ListAfterCall(cfg, s, Again(s, key, now), key);
  }

  lemma AdmittedStamps(cfg: Config, ss: seq<State>, calls: seq<Call>, t: State, c: Call)
    requires |ss| == |calls| + 1 && Admits(cfg, ss[|calls|], c)
    ensures Stamps(cfg, ss + [t], calls + [c], c.key, |calls| + 1) == Stamps(cfg, ss, calls, c.key, |calls|) + [c.now]
  {
    hide Admits;
    SameStamps(cfg, ss, calls, ss + [t], calls + [c], c.key, |calls|);
  }

  lemma StampsUpTo(cfg: Config, ss: seq<State>, calls: seq<Call>, key: Key)
    requires IsRun(cfg, ss, calls) && calls != []
    ensures var stamps := Stamps(cfg, ss, calls, key, |calls|);
      forall i :: 0 <= i < |stamps| ==> stamps[i] <= calls[|calls| - 1].now
  {
    hide After, Admits;
    StampsSorted(cfg, ss, calls, key, |calls|);
    var stamps := Stamps(cfg, ss, calls, key, |calls|);
    forall i | 0 <= i < |stamps| ensures stamps[i] <= calls[|calls| - 1].now {
      assert stamps[i] in stamps;
    }
  }

  /** The next call's window holds what really is in it. */
  lemma NextInWindow(cfg: Config, ss: seq<State>, calls: seq<Call>, t: State, c: Call)
    requires IsRun(cfg, ss, calls) && calls != [] && calls[|calls| - 1].now == c.now
    ensures InWindow(cfg, ss + [t], calls + [c], |calls|) == InFact(cfg, ss, calls, c.key, c.now)
  {
    hide KeepAfter, After, Stamps, IsRun;
    RunShape(cfg, ss, calls);
    SameStamps(cfg, ss, calls, ss + [t], calls + [c], c.key, |calls|);
    StampsUpTo(cfg, ss, calls, c.key);
    CountIsKept(Stamps(cfg, ss, calls, c.key, |calls|), c.now - cfg.window, c.now);
  }

  lemma CleanOneMore(cfg: Config, ss: seq<State>, calls: seq<Call>, t: State, c: Call, n: nat)
    requires |ss| == |calls| + 1 && CleanFrom(cfg, ss, calls, n) && CleanSweep(cfg, ss[|calls|], c)
    ensures CleanFrom(cfg, ss + [t], calls + [c], n)
  {
    hide CleanSweep;
    var longer, more := ss + [t], calls + [c];
    forall i | n <= i < |more| ensures CleanSweep(cfg, longer[i], more[i]) {
      if i < |calls| {
        assert longer[i] == ss[i] && more[i] == calls[i];
      }
    }
  }

  lemma FullIsRefused(cfg: Config, s: State, key: Key, now: Time)
    requires s.sweptAt.Some? && cfg.limit > 0 && |KeepAfter(ListOf(s, key), now - cfg.window)| >= cfg.limit
    ensures !Admits(cfg, s, Again(s, key, now))
  {
    hide KeepAfter;
  }

  /** While the limiter sees more stamps of a key as live than there are admitted calls in the
      window, calling that key often enough gets a call refused with room left. */
  lemma {:induction false} CallUntilRefused(cfg: Config, ss: seq<State>, calls: seq<Call>, key: Key, now: Time, n: nat)
    returns (longer: seq<State>, more: seq<Call>)
    requires IsRun(cfg, ss, calls) && cfg.limit > 0 && cfg.window > 0
    requires calls != [] && calls[|calls| - 1].now == now && ss[|calls|].sweptAt.Some? && CleanFrom(cfg, ss, calls, n)
    requires InFact(cfg, ss, calls, key, now) < Live(cfg, ss, calls, key, now) <= cfg.limit
    ensures IsRun(cfg, longer, more) && Continues(ss, calls, longer, more) && CleanFrom(cfg, longer, more, n)
    ensures more != [] && WrongRefusal(cfg, longer, more, |more| - 1)
    decreases cfg.limit - Live(cfg, ss, calls, key, now)
  {
    hide KeepAfter, After, Admits, IsRun, CleanFrom, CleanSweep, InWindow, Stamps, ListOf;
    RunShape(cfg, ss, calls);
    var s := ss[|calls|];
    var c := Again(s, key, now);
    var t := After(cfg, s, c);
    OneCallMore(cfg, ss, calls, c);
    NoSweepAgain(cfg, s, key, now);
    CleanOneMore(cfg, ss, calls, t, c, n);
    longer, more := ss + [t], calls + [c];
    if Live(cfg, ss, calls, key, now) >= cfg.limit {
      FullIsRefused(cfg, s, key, now);
      NextInWindow(cfg, ss, calls, t, c);
    } else {
      var lo := now - cfg.window;
      AdmittedList(cfg, s, key, now);
      AdmittedStamps(cfg, ss, calls, t, c);
      KeepsLive(ListOf(s, key), now, lo);
      KeepsOneMore(Stamps(cfg, ss, calls, key, |calls|), now, lo);
      longer, more := CallUntilRefused(cfg, ss + [t], calls + [c], key, now, n);
    }
  }

  // --- an unclean sweep -----------------------------------------------------------------------------

  /** Sweeping a sorted mixed list shows strictly more live stamps than there are. */
  lemma MixedShowsMore(list: seq<Time>, c: Time)
    requires Sorted(list) && Mixed(list, c)
    ensures |KeepAfter(SweptOrGone(list, c), c)| > |KeepAfter(list, c)|
  {
    SweepIsExactIff(list, c);
    KeepSwept(list, c, c);
    var tail := list[|KeepAfter(list, c)|..];
    assert KeepAfter(tail, c) == [] ==> KeepAfter(SweptList(list, c), c) == KeepAfter(list, c);
  }

  lemma LiveMeansWindow(list: seq<Time>, now: Time, window: Time)
    requires SortedUpTo(list, now) && Mixed(list, now - window)
    ensures window > 0
  {
    var c := now - window;
    var first := KeepAfter(list, c)[0];
    assert first in KeepAfter(list, c);
    KeptElements(list, c);
    assert first in list && first > c;
    var i :| 0 <= i < |list| && list[i] == first;
  }

  lemma SweptListAfter(cfg: Config, s: State, c: Call, key: Key)
    requires cfg.limit > 0 && Sweeps(cfg, s, c)
    ensures ListOf(After(cfg, s, c), key)
            == SweptOrGone(RecordedList(cfg, ListOf(s, key), c, c.key == key), c.now - cfg.window)
    ensures After(cfg, s, c).sweptAt.Some?
  {
    hide KeepAfter, SweptOrGone, RecordedList;
    ListAfterCall(cfg, s, c, key);
  }

  lemma MixedSweepMisleads(cfg: Config, ss: seq<State>, calls: seq<Call>, key: Key)
    requires IsRun(cfg, ss, calls) && calls != [] && cfg.limit > 0
    requires forall i :: 0 <= i < |calls| - 1 ==> CleanSweep(cfg, ss[i], calls[i])
    requires Sweeps(cfg, ss[|calls| - 1], calls[|calls| - 1])
    requires var n := |calls| - 1;
      Mixed(RecordedList(cfg, ListOf(ss[n], key), calls[n], calls[n].key == key), calls[n].now - cfg.window)
    ensures var now := calls[|calls| - 1].now;
      InFact(cfg, ss, calls, key, now) < Live(cfg, ss, calls, key, now)
    ensures cfg.window > 0 && ss[|calls|].sweptAt.Some?
  {
    hide KeepAfter, Mixed, RecordedList, CleanSweep, Sweeps, After, SweptOrGone, Stamps, ListOf;
    var n := |calls| - 1;
    var c, list, stamps := calls[n], ListOf(ss[n], key), Stamps(cfg, ss, calls, key, n);
    var c0, rec := c.now - cfg.window, RecordedList(cfg, list, c, c.key == key);
    CleanListsSorted(cfg, ss, calls, key, n, c.now);
    CallKeepsSorted(cfg, list, c, c.key == key, false);
    LiveMeansWindow(rec, c.now, cfg.window);
    OneCall(cfg, ss, calls, key, n);
    CleanRunsAreExact(cfg, ss, calls, key, n, c0);
    RecordedShowsExactly(cfg, list, c, c.key == key, stamps);
    assert KeepAfter(rec, c0) == KeepAfter(Stamped(cfg, list, c, c.key == key, stamps), c0);
    SweptListAfter(cfg, ss[n], c, key);
    MixedShowsMore(rec, c0);
  }

  lemma LiveIsShort(cfg: Config, ss: seq<State>, calls: seq<Call>, key: Key, now: Time)
    requires IsRun(cfg, ss, calls) && cfg.limit > 0
    ensures Live(cfg, ss, calls, key, now) <= cfg.limit
  {
    hide KeepAfter, After;
    ListsAreShort(cfg, ss, calls, key, |calls|);
  }

  /** A run whose last sweep alone is unclean can go on, without another sweep, to a refusal with
      room left. */
  lemma UncleanSweepMisleads(cfg: Config, ss: seq<State>, calls: seq<Call>)
    returns (longer: seq<State>, more: seq<Call>)
    requires IsRun(cfg, ss, calls) && calls != [] && cfg.limit > 0
    requires forall i :: 0 <= i < |calls| - 1 ==> CleanSweep(cfg, ss[i], calls[i])
    requires !CleanSweep(cfg, ss[|calls| - 1], calls[|calls| - 1])
    ensures IsRun(cfg, longer, more) && Continues(ss, calls, longer, more) && CleanFrom(cfg, longer, more, |calls|)
    ensures more != [] && WrongRefusal(cfg, longer, more, |more| - 1)
  {
    hide KeepAfter, Mixed, RecordedList, Sweeps, After, ListOf, Live, InFact;
    var n := |calls| - 1;
    var c := calls[n];
    var k :| Mixed(RecordedList(cfg, ListOf(ss[n], k), c, c.key == k), c.now - cfg.window);
    MixedSweepMisleads(cfg, ss, calls, k);
    LiveIsShort(cfg, ss, calls, k, c.now);
    longer, more := CallUntilRefused(cfg, ss, calls, k, c.now, |calls|);
  }

  // --- the exact condition --------------------------------------------------------------------------

  /** However this run goes on - sweeping only clean lists from now on - no call is refused with
      room left in its window. */
  ghost predicate RefusalsDeserved(cfg: Config, ss: seq<State>, calls: seq<Call>) {
    forall longer, more, m: nat ::
      IsRun(cfg, longer, more) && Continues(ss, calls, longer, more) && CleanFrom(cfg, longer, more, |calls|)
          && m < |more| ==>
        !WrongRefusal(cfg, longer, more, m)
  }

  lemma CleanThroughout(cfg: Config, ss: seq<State>, calls: seq<Call>, longer: seq<State>, more: seq<Call>)
    requires |ss| == |calls| + 1 && |longer| == |more| + 1 && Continues(ss, calls, longer, more)
    requires CleanFrom(cfg, ss, calls, 0) && CleanFrom(cfg, longer, more, |calls|)
    ensures CleanFrom(cfg, longer, more, 0)
  {
    hide CleanSweep;
    forall i | 0 <= i < |more| ensures CleanSweep(cfg, longer[i], more[i]) {
      if i < |calls| {
        assert longer[i] == ss[i] && more[i] == calls[i];
      }
    }
  }

  lemma CleanRefusalIsRight(cfg: Config, ss: seq<State>, calls: seq<Call>, m: nat)
    requires IsRun(cfg, ss, calls) && m < |calls| && cfg.limit > 0 && CleanFrom(cfg, ss, calls, 0)
    ensures !WrongRefusal(cfg, ss, calls, m)
  {
    hide CleanSweep, InWindow, Admits, After;
    AdmittedIffRoom(cfg, ss, calls, m);
  }

  /** The exact condition over runs. Let every sweep of a run but the last be clean. Then no way to
      go on with clean sweeps ever refuses a call while fewer than limit admitted calls are in its
      window, if and only if the last sweep, too, met no list with both stale and live stamps. */
  lemma RefusalsDeservedIff(cfg: Config, ss: seq<State>, calls: seq<Call>)
    requires IsRun(cfg, ss, calls) && calls != [] && cfg.limit > 0
    requires forall i :: 0 <= i < |calls| - 1 ==> CleanSweep(cfg, ss[i], calls[i])
    ensures CleanSweep(cfg, ss[|calls| - 1], calls[|calls| - 1]) <==> RefusalsDeserved(cfg, ss, calls)
  {
    hide CleanSweep, WrongRefusal, After;
    if CleanSweep(cfg, ss[|calls| - 1], calls[|calls| - 1]) {
      assert CleanFrom(cfg, ss, calls, 0);
      forall longer, more, m: nat | IsRun(cfg, longer, more) && Continues(ss, calls, longer, more)
        && CleanFrom(cfg, longer, more, |calls|) && m < |more|
        ensures !WrongRefusal(cfg, longer, more, m)
      {
        CleanThroughout(cfg, ss, calls, longer, more);
        CleanRefusalIsRight(cfg, longer, more, m);
      }
    } else {
      var longer, more := UncleanSweepMisleads(cfg, ss, calls);
      assert WrongRefusal(cfg, longer, more, |more| - 1);
    }
  }
}
