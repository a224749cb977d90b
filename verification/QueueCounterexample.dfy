// Why the timing hypothesis cannot be replaced by the configuration check
// JobTimeout < StuckJobTimeout (config/main.go): a concrete run. A pool with one processor claims
// two jobs at time 0; the first keeps the processor for all of JobTimeout, so the other is started
// at 10 and, at 12, is still well within its own JobTimeout when a second process finds it stuck.
module QueueCounterexample {
  import opened JobTable
  import opened Queue

  /** handle's own deadline: every running copy has been processing at most JobTimeout. */
  ghost predicate HandledInTime(cfg: Config, s: State) {
    forall c :: c in s.held && c.stage.Started? ==> s.now <= c.stage.at + cfg.jobTimeout
  }

  const CFG := Config(2, 1, 10, 11, 2)
  const ID: JobId := "a"
  const OTHER: JobId := "b"

  function First(stage: Stage): Copy { Copy(ID, 1, 0, stage) }
  function Second(stage: Stage): Copy { Copy(ID, 2, 12, stage) }
  function Long(stage: Stage): Copy { Copy(OTHER, 1, 0, stage) }

  const FRESH := Row(Pending, 0, 0, 0, 0, "")
  const CLAIMED := Row(Processing, 1, 0, 0, 0, "")
  const DONE := Row(Done, 1, 0, 0, 10, "")
  const BLANK := History(0, {}, 0, 0, 0)
  const ONCE := History(1, {}, 0, 0, 0)

  function At(now: Time, row: Row, other: Row, held: set<Copy>, h: History, g: History): State {
    State(now, map[ID := row, OTHER := other], {}, {ID, OTHER}, held, map[ID := h, OTHER := g])
  }

  /** After both claims, before the requeue. */
  function Busy(now: Time, other: Row, held: set<Copy>): State {
    At(now, CLAIMED, other, held, ONCE, ONCE)
  }

  /** After the requeue at 12. */
  function Late(row: Row, held: set<Copy>, h: History): State {
    At(12, row, DONE, held, h, ONCE)
  }

  const STATES: seq<State> := [
    Init(0),
    State(0, map[ID := FRESH], {ID}, {}, {}, map[ID := BLANK]),
    State(0, map[ID := FRESH], {}, {ID}, {}, map[ID := BLANK]),
    State(0, map[ID := FRESH, OTHER := FRESH], {OTHER}, {ID}, {}, map[ID := BLANK, OTHER := BLANK]),
    At(0, FRESH, FRESH, {}, BLANK, BLANK),
    Busy(0, CLAIMED, {First(Fetched), Long(Fetched)}),
    Busy(0, CLAIMED, {First(Fetched), Long(Queued)}),
    Busy(0, CLAIMED, {First(Fetched), Long(Started(0))}),
    Busy(0, CLAIMED, {First(Queued), Long(Started(0))}),
    Busy(10, CLAIMED, {First(Queued), Long(Started(0))}),
    Busy(10, DONE, {First(Queued)}),
    Busy(10, DONE, {First(Started(10))}),
    Busy(12, DONE, {First(Started(10))}),
    Late(Row(Pending, 1, 0, 0, 12, ""), {First(Started(10))}, History(1, {}, 1, 0, 0)),
    Late(Row(Processing, 2, 0, 0, 12, ""), {First(Started(10)), Second(Fetched)}, History(2, {}, 1, 0, 0)),
    Late(Row(Processing, 2, 0, 0, 12, ""), {First(Started(10)), Second(Queued)}, History(2, {}, 1, 0, 0)),
    Late(Row(Processing, 2, 0, 0, 12, ""), {First(Started(10)), Second(Started(12))}, History(2, {}, 1, 0, 0)),
    Late(Row(Done, 2, 0, 0, 12, ""), {First(Started(10))}, History(2, {}, 1, 0, 0)),
    Late(Row(Pending, 2, 13, 0, 12, "late"), {}, History(2, {1}, 1, 0, 13))]

  const STEPS: seq<Step> := [
    Insert(ID, 0), Attach(ID), Insert(OTHER, 0), Attach(OTHER), Claim({ID, OTHER}, {}, 0),
    Enqueue(Long(Fetched)), Start(Long(Queued)), Enqueue(First(Fetched)), Tick(10), Finish(Long(Started(0)), 10),
    Start(First(Queued)), Tick(12), Reset(1, 12), Claim({ID}, {}, 12), Enqueue(Second(Fetched)),
    Start(Second(Queued)), Finish(Second(Started(12)), 12), Fail(First(Started(10)), "late", 12, 12)]

  ghost predicate Leads(s: State, st: Step, t: State) {
    Enabled(CFG, s, st) && t == Next(CFG, s, st)
  }

  lemma Uploaded()
    ensures Leads(STATES[0], STEPS[0], STATES[1])
  {
  }

  lemma OriginalStored()
    ensures Leads(STATES[1], STEPS[1], STATES[2])
  {
  }

  lemma OtherUploaded()
    ensures Leads(STATES[2], STEPS[2], STATES[3])
  {
  }

  lemma OtherStored()
    ensures Leads(STATES[3], STEPS[3], STATES[4])
  {
  }

  /** A table of the two jobs. */
  lemma TwoKeys<V>(m: map<JobId, V>, a: V, b: V)
    requires m.Keys == {ID, OTHER} && m[ID] == a && m[OTHER] == b
    ensures m == map[ID := a, OTHER := b]
  {
  }

  lemma BothMayBeClaimed()
    ensures Enabled(CFG, STATES[4], STEPS[4])
  {
    assert |{ID, OTHER}| == 2;
  }

  lemma BothCopies()
    ensures ClaimedCopies(map[ID := FRESH, OTHER := FRESH], {ID, OTHER}, 0) == {First(Fetched), Long(Fetched)}
  {
  }

  lemma BothClaimed()
    ensures Leads(STATES[4], STEPS[4], STATES[5])
  {
    var s, st := STATES[4], STEPS[4];
    BothMayBeClaimed();
    BothCopies();
    hide Enabled, ClaimChoice, ClaimedCopies;
    TwoKeys(Next(CFG, s, st).rows, CLAIMED, CLAIMED);
    TwoKeys(Next(CFG, s, st).hist, ONCE, ONCE);
  }

  lemma OtherQueued()
    ensures Leads(STATES[5], STEPS[5], STATES[6])
  {
  }

  lemma OtherStarts()
    ensures Leads(STATES[6], STEPS[6], STATES[7])
  {
  }

  lemma JobWaits()
    ensures Leads(STATES[7], STEPS[7], STATES[8])
  {
  }

  lemma TenPass()
    ensures Leads(STATES[8], STEPS[8], STATES[9])
  {
  }

  lemma OtherDone()
    ensures Leads(STATES[9], STEPS[9], STATES[10])
  {
  }

  lemma JobStarts()
    ensures Leads(STATES[10], STEPS[10], STATES[11])
  {
  }

  lemma TwoMorePass()
    ensures Leads(STATES[11], STEPS[11], STATES[12])
  {
  }

  lemma FoundStuck()
    ensures Leads(STATES[12], STEPS[12], STATES[13])
  {
    var s, st := STATES[12], STEPS[12];
    TwoKeys(Next(CFG, s, st).rows, Row(Pending, 1, 0, 0, 12, ""), DONE);
    TwoKeys(Next(CFG, s, st).hist, History(1, {}, 1, 0, 0), ONCE);
  }

  lemma OneMayBeClaimed()
    ensures Enabled(CFG, STATES[13], STEPS[13])
  {
  }

  lemma OneCopy(rows: Table)
    requires ID in rows && rows[ID].attempts == 1
    ensures ClaimedCopies(rows, {ID}, 12) == {Second(Fetched)}
  {
  }

  lemma ClaimedAgain()
    ensures Leads(STATES[13], STEPS[13], STATES[14])
  {
    var s, st := STATES[13], STEPS[13];
    OneCopy(s.rows);
    hide Enabled, ClaimedCopies;
    OneMayBeClaimed();
    TwoKeys(Next(CFG, s, st).rows, Row(Processing, 2, 0, 0, 12, ""), DONE);
    TwoKeys(Next(CFG, s, st).hist, History(2, {}, 1, 0, 0), ONCE);
  }

  lemma SecondQueued()
    ensures Leads(STATES[14], STEPS[14], STATES[15])
  {
  }

  lemma SecondStarts()
    ensures Leads(STATES[15], STEPS[15], STATES[16])
  {
  }

  lemma SecondDone()
    ensures Leads(STATES[16], STEPS[16], STATES[17])
  {
  }

  lemma FirstFails()
    ensures Leads(STATES[17], STEPS[17], STATES[18])
  {
    var s, st := STATES[17], STEPS[17];
    assert Backoff(CFG, 1) == 1;
    assert s.held - {First(Started(10))} == {};
    assert s.hist[ID].retried + {1} == {1};
    hide Backoff, Int64;
    TwoKeys(Next(CFG, s, st).rows, Row(Pending, 2, 13, 0, 12, "late"), DONE);
    TwoKeys(Next(CFG, s, st).hist, History(2, {1}, 1, 0, 13), ONCE);
  }

  lemma EveryStep(i: nat)
    requires i < |STEPS|
    ensures Leads(STATES[i], STEPS[i], STATES[i + 1])
  {
    hide Leads;
    match i
    case 0 => Uploaded();
    case 1 => OriginalStored();
    case 2 => OtherUploaded();
    case 3 => OtherStored();
    case 4 => BothClaimed();
    case 5 => OtherQueued();
    case 6 => OtherStarts();
    case 7 => JobWaits();
    case 8 => TenPass();
    case 9 => OtherDone();
    case 10 => JobStarts();
    case 11 => TwoMorePass();
    case 12 => FoundStuck();
    case 13 => ClaimedAgain();
    case 14 => SecondQueued();
    case 15 => SecondStarts();
    case 16 => SecondDone();
    case _ => FirstFails();
  }

  lemma InTime(i: nat)
    requires i < |STATES|
    ensures HandledInTime(CFG, STATES[i])
  {
  }

  /** The job waits in the channel only while the other keeps the processor. */
  lemma WaitsItsTurn(i: nat)
    requires i < |STEPS| && First(Queued) in STATES[i].held
    ensures Long(Started(0)) in STATES[i].held || STATES[i + 1].held == {First(Started(10))}
  {
  }

  lemma ItIsARun()
    ensures IsRun(CFG, STATES, STEPS)
  {
    hide Enabled, Next;
    forall i | 0 <= i < |STEPS|
      ensures Enabled(CFG, STATES[i], STEPS[i]) && STATES[i + 1] == Next(CFG, STATES[i], STEPS[i])
    {
      EveryStep(i);
    }
  }

  lemma HeldTwice()
    ensures First(Started(10)) in STATES[16].held && Second(Started(12)) in STATES[16].held
  {
  }

  lemma Reopened()
    ensures ID in STATES[17].rows && STATES[17].rows[ID].status.Done?
    ensures ID in STATES[18].rows && STATES[18].rows[ID].status.Pending?
  {
  }

  /** JobTimeout starts in handle, after the wait in the channel, so keeping it below
      StuckJobTimeout is not enough: here no copy is handled for longer than JobTimeout and the
      job waits only while the other keeps the processor, yet it is processed twice at once
      and its done row goes back to pending. */
  lemma ConfigCheckIsNotEnough()
    ensures CFG.jobTimeout < CFG.stuckTimeout
    ensures IsRun(CFG, STATES, STEPS)
    ensures forall i :: 0 <= i < |STATES| ==> HandledInTime(CFG, STATES[i])
    ensures forall i :: 0 <= i < |STEPS| && First(Queued) in STATES[i].held ==>
              Long(Started(0)) in STATES[i].held || STATES[i + 1].held == {First(Started(10))}
    ensures exists i, c, d :: 0 <= i < |STATES| && c in STATES[i].held && d in STATES[i].held
              && c != d && c.job == d.job && c.stage.Started? && d.stage.Started?
    ensures exists i, j :: 0 <= i < j < |STATES| && ID in STATES[i].rows && ID in STATES[j].rows
              && STATES[i].rows[ID].status.Done? && STATES[j].rows[ID].status.Pending?
  {
    hide Enabled, Next, HandledInTime, IsRun, At, Busy, Late;
    ItIsARun();
    forall i | 0 <= i < |STATES| ensures HandledInTime(CFG, STATES[i]) {
      InTime(i);
    }
    forall i | 0 <= i < |STEPS| && First(Queued) in STATES[i].held
      ensures Long(Started(0)) in STATES[i].held || STATES[i + 1].held == {First(Started(10))}
    {
      WaitsItsTurn(i);
    }
    HeldTwice();
    Reopened();
  }
}
