// Why the queue comes to rest: every step on a job's copies is paid for by one of its claims, and
// in a careful run the claims are bounded by MaxRetries and the copies that were abandoned.
module QueueTermination {
  import opened JobTable
  import opened Queue
  import opened QueueSafety
  import opened QueueRuns

  /** The steps still ahead of a copy: enqueue, start, outcome. */
  function Ahead(c: Copy): nat {
    match c.stage
    case Fetched => 3
    case Queued => 2
    case Started(_) => 1
  }

  function Still(held: set<Copy>, id: JobId, n: nat): set<Copy> {
    set c | c in held && c.job == id && Ahead(c) >= n
  }

  /** The measure: the steps still ahead of all of a job's copies. */
  function Left(held: set<Copy>, id: JobId): nat {
    |Still(held, id, 1)| + |Still(held, id, 2)| + |Still(held, id, 3)|
  }

  function Share(c: Copy, id: JobId): nat {
    if c.job == id then Ahead(c) else 0
  }

  lemma StillWith(held: set<Copy>, c: Copy, id: JobId, n: nat)
    requires c !in held
    ensures |Still(held + {c}, id, n)| == |Still(held, id, n)| + One(c.job == id && Ahead(c) >= n)
  {
    if c.job == id && Ahead(c) >= n {
      assert Still(held + {c}, id, n) == Still(held, id, n) + {c};
    } else {
      assert Still(held + {c}, id, n) == Still(held, id, n);
    }
  }

  lemma LeftWith(held: set<Copy>, c: Copy, id: JobId)
    requires c !in held
    ensures Left(held + {c}, id) == Left(held, id) + Share(c, id)
  {
    hide Still;
    StillWith(held, c, id, 1);
    StillWith(held, c, id, 2);
    StillWith(held, c, id, 3);
  }

  lemma LeftWithout(held: set<Copy>, c: Copy, id: JobId)
    requires c in held
    ensures Left(held - {c}, id) + Share(c, id) == Left(held, id)
  {
    hide Left, Share;
    LeftWith(held - {c}, c, id);
    assert held - {c} + {c} == held;
  }

  lemma LeftOfMoved(held: set<Copy>, c: Copy, d: Copy, id: JobId)
    requires c in held && d !in held && c.job == d.job && Ahead(c) == Ahead(d) + 1
    ensures Left(held - {c} + {d}, id) + One(c.job == id) == Left(held, id)
  {
    hide Left;
    LeftWithout(held, c, id);
    LeftWith(held - {c}, d, id);
  }

  /** A step on one of the job's copies after its claim. */
  function Moves(id: JobId): Step -> bool {
    (st: Step) => (st.Enqueue? || st.Start? || st.Abandon? || st.Finish? || st.Fail?) && st.c.job == id
  }

  function Handles(id: JobId): Step -> bool {
    (st: Step) => Claims(id)(st) || Moves(id)(st)
  }

  lemma LeftAfterClaim(cfg: Config, s: State, st: Step, id: JobId)
    requires Basic(cfg, s) && Enabled(cfg, s, st) && st.Claim?
    ensures Left(Next(cfg, s, st).held, id) == Left(s.held, id) + 3 * One(Claims(id)(st))
  {
    hide Left;
    var t := Next(cfg, s, st);
    if id in st.ids {
      var c := Copy(id, s.rows[id].attempts + 1, st.stamp, Fetched);
      LeftWith(s.held, c, id);
      OnlyIdCounts(t.held, s.held + {c}, id);
    } else {
      OnlyIdCounts(t.held, s.held, id);
    }
  }

  lemma OnlyIdCounts(a: set<Copy>, b: set<Copy>, id: JobId)
    requires forall c: Copy :: c.job == id ==> (c in a <==> c in b)
    ensures Left(a, id) == Left(b, id)
  {
    assert forall n: nat :: Still(a, id, n) == Still(b, id, n);
  }

  /** Every step on a job's copies lowers the measure, except a claim, which adds three. */
  lemma LeftFalls(cfg: Config, s: State, st: Step, id: JobId)
    requires Basic(cfg, s) && Enabled(cfg, s, st)
    ensures Left(Next(cfg, s, st).held, id) + One(Moves(id)(st)) <= Left(s.held, id) + 3 * One(Claims(id)(st))
  {
    hide Left, Still;
    match st
    case Claim(_, _, _) => LeftAfterClaim(cfg, s, st, id);
    case Enqueue(c) => LeftOfMoved(s.held, c, c.(stage := Queued), id);
    case Start(c) => LeftOfMoved(s.held, c, c.(stage := Started(s.now)), id);
    case Abandon(c) => LeftWithout(s.held, c, id);
    case Finish(c, _) => LeftWithout(s.held, c, id);
    case Fail(c, _, _, _) => LeftWithout(s.held, c, id);
    case _ =>
  }

  /** In every run the steps taken on a job's copies, and those still ahead of the copies held, are
      at most three for each of its claims. */
  lemma {:induction false} MovesArePaidFor(cfg: Config, states: seq<State>, steps: seq<Step>, id: JobId, i: nat)
    requires IsRun(cfg, states, steps) && i <= |steps|
    ensures Count(steps, i, Moves(id)) + Left(states[i].held, id) <= 3 * Count(steps, i, Claims(id))
  {
    hide Next, Enabled, Basic, Moves, Claims;
    if i > 0 {
      MovesArePaidFor(cfg, states, steps, id, i - 1);
      RunBasic(cfg, states, steps, i - 1);
      hide Left;
      LeftFalls(cfg, states[i - 1], steps[i - 1], id);
    }
  }

  lemma {:induction false} HandlesAreClaimsAndMoves(steps: seq<Step>, id: JobId, i: nat)
    requires i <= |steps|
    ensures Count(steps, i, Handles(id)) == Count(steps, i, Claims(id)) + Count(steps, i, Moves(id))
  {
    if i > 0 {
      HandlesAreClaimsAndMoves(steps, id, i - 1);
    }
  }

  /** In a careful run all steps on one job's copies - claims, enqueues, starts, outcomes, drops -
      taken so far or still ahead number at most 4 * (MaxRetries + 1 + abandoned copies): once
      copies stop being abandoned, the job comes to rest. */
  lemma JobComesToRest(cfg: Config, states: seq<State>, steps: seq<Step>, id: JobId)
    requires CarefulRun(cfg, states, steps)
    ensures Count(steps, |steps|, Handles(id)) + Left(states[|steps|].held, id)
            <= 4 * (cfg.maxRetries + 1 + Count(steps, |steps|, Abandons(id)))
  {
    hide Count, Left, Handles, Moves, Claims, Abandons;
    ClaimsAreBounded(cfg, states, steps, id);
    MovesArePaidFor(cfg, states, steps, id, |steps|);
    HandlesAreClaimsAndMoves(steps, id, |steps|);
  }
}
