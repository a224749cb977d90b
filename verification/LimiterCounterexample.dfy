// A run in which the limiter refuses a call although only one admitted call is in its window and
// two are allowed: a sweep on behalf of another key turned the list [0, 5] into [5, 5].
module LimiterCounterexample {
  import opened Basics
  import opened LimiterSpec
  import opened LimiterRuns

  const CFG := Config(2, 10)

  const A0 := Call("a", 0, 0, 0)
  const A5 := Call("a", 5, 5, 5)
  const B11 := Call("b", 11, 11, 11)
  const A12 := Call("a", 12, 12, 12)

  const S0 := EMPTY
  const S1 := State(map["a" := [0]], Some(0))
  const S2 := State(map["a" := [0, 5]], Some(0))
  const S3 := State(map["a" := [5, 5], "b" := [11]], Some(11))
  const S4 := State(map["a" := [5, 5], "b" := [11]], Some(11))

  const CALLS := [A0, A5, B11, A12]
  const STATES := [S0, S1, S2, S3, S4]

  lemma KeepTwo(x: Time, y: Time, c: Time)
    ensures KeepAfter([x, y], c) == (if x > c then [x] else []) + (if y > c then [y] else [])
  {
    KeepOne(x, c);
    assert [x, y][..1] == [x];
  }

  lemma KeepNone(c: Time)
    ensures KeepAfter([], c) == []
  {
  }

  lemma PlainCall(cfg: Config, s: State, c: Call, kept: seq<Time>)
    requires Kept(cfg, s, c) == kept && |kept| < cfg.limit && !Sweeps(cfg, s, c)
    ensures After(cfg, s, c) == State(s.lists[c.key := kept + [c.now]], s.sweptAt)
  {
  }

  lemma SweepingCall(cfg: Config, s: State, c: Call, kept: seq<Time>, swept: map<Key, seq<Time>>)
    requires Kept(cfg, s, c) == kept && |kept| < cfg.limit && Sweeps(cfg, s, c)
    requires SweepLists(s.lists[c.key := kept + [c.now]], c.now - cfg.window) == swept
    ensures After(cfg, s, c) == State(swept, Some(c.again))
  {
  }

  lemma SweptOne(t: Time, c: Time)
    requires t > c
    ensures KeepAfter([t], c) != [] && SweptList([t], c) == [t]
  {
    KeepOne(t, c);
    assert [t] + [t][1..] == [t];
  }

  lemma SweptTwo(x: Time, y: Time, c: Time)
    requires x <= c < y
    ensures KeepAfter([x, y], c) != [] && SweptList([x, y], c) == [y, y]
  {
    KeepTwo(x, y, c);
    assert [y] + [x, y][1..] == [y, y];
  }

  lemma FirstCall()
    ensures After(CFG, S0, A0) == S1
  {
    hide KeepAfter, SweptList;
    SweptOne(0, -10);
    KeepNone(-10);
    assert [] + [A0.now] == [0];
    SweepingCall(CFG, S0, A0, [], map["a" := [0]]);
  }

  lemma SecondCall()
    ensures After(CFG, S1, A5) == S2
  {
    hide KeepAfter;
    KeepOne(0, -5);
    PlainCall(CFG, S1, A5, [0]);
    assert [0] + [5] == [0, 5];
  }

  lemma BothSwept(a: seq<Time>, b: seq<Time>, c: Time)
    requires a == [0, 5] && b == [11] && c == 1
    ensures SweepLists(map["a" := a]["b" := b], c) == map["a" := [5, 5], "b" := b]
  {
    hide KeepAfter, SweptList;
    SweptOne(11, 1);
    SweptTwo(0, 5, 1);
  }

  lemma ThirdCall()
    ensures After(CFG, S2, B11) == S3
  {
    hide KeepAfter, SweepLists;
    BothSwept([0, 5], [11], 1);
    KeepNone(1);
    assert [] + [B11.now] == [11];
    SweepingCall(CFG, S2, B11, [], S3.lists);
  }

  lemma FourthCall()
    ensures After(CFG, S3, A12) == S4
    ensures !Admits(CFG, S3, A12)
  {
    KeepTwo(5, 5, 2);
    assert [5] + [5] == [5, 5];
  }

  lemma EveryCall(i: nat)
    requires i < |CALLS|
    ensures STATES[i + 1] == After(CFG, STATES[i], CALLS[i])
  {
    if i == 0 {
      FirstCall();
    } else if i == 1 {
      SecondCall();
    } else if i == 2 {
      ThirdCall();
    } else {
      FourthCall();
    }
  }

  lemma ItIsARun()
    ensures IsRun(CFG, STATES, CALLS)
  {
    forall i | 0 <= i < |CALLS| ensures STATES[i + 1] == After(CFG, STATES[i], CALLS[i]) {
      EveryCall(i);
    }
  }

  lemma AdmittedStamps()
    ensures Stamps(CFG, STATES, CALLS, "a", 3) == [0, 5]
  {
    assert Stamps(CFG, STATES, CALLS, "a", 0) == [];
    assert Stamps(CFG, STATES, CALLS, "a", 1) == [0];
    KeepOne(0, -5);
    assert Stamps(CFG, STATES, CALLS, "a", 2) == [0] + [5];
  }

  /** The call is refused with one admitted call in the window and a limit of two. */
  lemma RefusedTooEarly()
    ensures IsRun(CFG, STATES, CALLS)
    ensures !Admits(CFG, STATES[3], CALLS[3]) && InWindow(CFG, STATES, CALLS, 3) == 1 < CFG.limit
  {
    ItIsARun();
    FourthCall();
    AdmittedStamps();
    assert [0, 5][..1] == [0] && [0][..0] == [];
    assert CountIn([0, 5], 2, 12) == 1;
  }
}
