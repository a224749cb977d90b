// Guessing, single use and browser binding over whole runs of the token repository.
module SignInRuns {
  import opened MagicTokens

  /** The table plus what happened so far; no step reads the history. */
  datatype Desk = Desk(
    rows: Table,
    born: map<Hash, Token>,      // every token as it was created
    tried: map<Hash, nat>,       // wrong codes tried while this token was a candidate
    compared: map<Hash, nat>,    // codes ever compared with this token's code
    used: seq<(Hash, Hash)>)     // successful email steps: the token, and the browser it came from

  datatype Step =
    | Create(h: Hash, token: Token)
    | Consume(h: Hash, browser: Hash, now: Time)
    | TryCode(user: UserId, browser: Hash, accept: Match, now: Time, order: seq<Hash>)
    | Purge(now: Time)

  const EMPTY := Desk(map[], map[], map[], map[], [])

  /** order is the order in which the candidate query returned its rows. */
  ghost predicate Enabled(d: Desk, st: Step) {
    match st
    case Create(h, token) => h !in d.born && token.attempts == 0
    case Consume(_, _, _) => true
    case TryCode(user, browser, accept, now, order) =>
      && (forall h :: h in order <==> Candidate(d.rows, user, browser, now, h))
      && (forall i, j :: 0 <= i < j < |order| ==> order[i] != order[j])
    case Purge(_) => true
  }

  /** Index of the first candidate whose code matches; the loop stops there. */
  function FirstMatch(t: Table, accept: Match, order: seq<Hash>): (i: nat)
    ensures i <= |order|
    ensures i < |order| ==> Accepts(t, accept, order[i])
    ensures forall k :: 0 <= k < i ==> !Accepts(t, accept, order[k])
  {
    if order == [] then 0 else if Accepts(t, accept, order[0]) then 0 else 1 + FirstMatch(t, accept, order[1..])
  }

  /** The tokens whose code this call compares: the candidates up to and including a match. */
  function Reached(t: Table, accept: Match, order: seq<Hash>): set<Hash> {
    var i := FirstMatch(t, accept, order);
    set h | h in (if i < |order| then order[..i + 1] else order) && h in t && t[h].code != ""
  }

  function Bumped(m: map<Hash, nat>, hs: set<Hash>): map<Hash, nat> {
    map h | h in m :: if h in hs then m[h] + 1 else m[h]
  }

  function Next(d: Desk, st: Step, max: nat): Desk {
    match st
    case Create(h, token) =>
      d.(rows := d.rows[h := token], born := d.born[h := token], tried := d.tried[h := 0],
          compared := d.compared[h := 0])
    case Consume(h, browser, now) =>
      d.(rows := ConsumeTable(d.rows, h, browser, now),
         used := if ConsumeResult(d.rows, h, browser, now).SignedIn? then d.used + [(h, browser)] else d.used)
    case TryCode(user, browser, accept, now, order) =>
      var r := CodeResult(d.rows, user, browser, accept, now);
      var i := FirstMatch(d.rows, accept, order);
      d.(rows := CodeTable(d.rows, user, browser, accept, max, now),
         tried := if r.BadCode? then Bumped(d.tried, Candidates(d.rows, user, browser, now)) else d.tried,
         compared := if r.NoCandidate? then d.compared else Bumped(d.compared, Reached(d.rows, accept, order)),
         used := if r.CodeOk? && i < |order| then d.used + [(order[i], browser)] else d.used)
    case Purge(now) => d.(rows := Purged(d.rows, now))
  }

  ghost predicate IsRun(ds: seq<Desk>, steps: seq<Step>, max: nat) {
    && |ds| == |steps| + 1 && ds[0] == EMPTY
    && forall i :: 0 <= i < |steps| ==> Enabled(ds[i], steps[i]) && ds[i + 1] == Next(ds[i], steps[i], max)
  }

  // --- invariants -------------------------------------------------------------------------------

  ghost predicate Domains(d: Desk) {
    && d.born.Keys == d.tried.Keys == d.compared.Keys
    && (forall h :: h in d.rows ==> h in d.born && d.rows[h] == d.born[h].(attempts := d.tried[h]))
  }

  ghost predicate Guesses(d: Desk, max: nat) {
    && d.tried.Keys == d.compared.Keys
    && (forall h :: h in d.tried && h in d.rows ==> d.tried[h] < max && d.compared[h] <= d.tried[h])
    && (forall h :: h in d.tried ==> d.tried[h] <= max && d.compared[h] <= max)
  }

  ghost predicate Uses(d: Desk) {
    && (forall i :: 0 <= i < |d.used| ==>
          && d.used[i].0 in d.born && d.used[i].0 !in d.rows
          && d.born[d.used[i].0].browser == d.used[i].1 != "")
    && (forall i, j :: 0 <= i < j < |d.used| ==> d.used[i].0 != d.used[j].0)
  }

  ghost predicate Inv(d: Desk, max: nat) {
    Domains(d) && Guesses(d, max) && Uses(d)
  }

  lemma StepKeepsDomains(d: Desk, st: Step, max: nat)
    requires Inv(d, max) && Enabled(d, st)
    ensures Domains(Next(d, st, max))
  {
  }

  lemma {:induction false} TryKeepsGuesses(d: Desk, st: Step, max: nat)
    requires Domains(d) && Guesses(d, max) && Enabled(d, st) && st.TryCode?
    ensures Guesses(Next(d, st, max), max)
  {
    assert forall h :: h in Reached(d.rows, st.accept, st.order) ==>
        h in Candidates(d.rows, st.user, st.browser, st.now);
    hide FirstMatch;
  }

  lemma {:induction false} StepKeepsGuesses(d: Desk, st: Step, max: nat)
    requires Inv(d, max) && Enabled(d, st) && max >= 1
    ensures Guesses(Next(d, st, max), max)
  {
    if st.TryCode? {
      TryKeepsGuesses(d, st, max);
    }
  }

  /** The call succeeds exactly when its loop stops at a match, so every success is recorded. */
  lemma SuccessIsAMatch(d: Desk, st: Step)
    requires Enabled(d, st) && st.TryCode?
    ensures CodeResult(d.rows, st.user, st.browser, st.accept, st.now).CodeOk? <==>
              st.browser != "" && FirstMatch(d.rows, st.accept, st.order) < |st.order|
  {
    var i := FirstMatch(d.rows, st.accept, st.order);
    if i < |st.order| {
      assert st.order[i] in Candidates(d.rows, st.user, st.browser, st.now);
    }
    forall h | h in Candidates(d.rows, st.user, st.browser, st.now) && Accepts(d.rows, st.accept, h)
      ensures i < |st.order|
    {
      var k :| 0 <= k < |st.order| && st.order[k] == h;
    }
  }

  lemma StepKeepsUses(d: Desk, st: Step, max: nat)
    requires Inv(d, max) && Enabled(d, st)
    ensures Uses(Next(d, st, max))
  {
    if st.TryCode? {
      var i := FirstMatch(d.rows, st.accept, st.order);
      if i < |st.order| {
        assert st.order[i] in st.order;
      }
    }
  }

  lemma {:induction false} RunInv(ds: seq<Desk>, steps: seq<Step>, max: nat, i: nat)
    requires IsRun(ds, steps, max) && max >= 1 && i < |ds|
    ensures Inv(ds[i], max)
  {
    if i > 0 {
      RunInv(ds, steps, max, i - 1);
      StepKeepsDomains(ds[i - 1], steps[i - 1], max);
      StepKeepsGuesses(ds[i - 1], steps[i - 1], max);
      StepKeepsUses(ds[i - 1], steps[i - 1], max);
    }
  }

  // --- theorems ------------------------------------------------------------------------------------

  /** A stored token's attempts are the wrong codes tried while it was a candidate, always below
      the limit; and over the whole run at most that many codes are ever compared with any token. */
  lemma GuessesAreBounded(ds: seq<Desk>, steps: seq<Step>, max: nat, i: nat)
    requires IsRun(ds, steps, max) && max >= 1 && i < |ds|
    ensures forall h :: h in ds[i].rows ==> h in ds[i].tried && ds[i].rows[h].attempts == ds[i].tried[h] < max
    ensures forall h :: h in ds[i].compared ==> ds[i].compared[h] <= max
  {
    RunInv(ds, steps, max, i);
  }

  /** Every successful email step spends a different token, from the browser that asked for it. */
  lemma SignsInOnceInItsOwnBrowser(ds: seq<Desk>, steps: seq<Step>, max: nat, i: nat)
    requires IsRun(ds, steps, max) && max >= 1 && i < |ds|
    ensures forall k :: 0 <= k < |ds[i].used| ==>
      ds[i].used[k].0 in ds[i].born && ds[i].born[ds[i].used[k].0].browser == ds[i].used[k].1 != ""
    ensures forall k, l :: 0 <= k < l < |ds[i].used| ==> ds[i].used[k].0 != ds[i].used[l].0
    ensures forall k :: 0 <= k < |ds[i].used| ==> ds[i].used[k].0 !in ds[i].rows
  {
    RunInv(ds, steps, max, i);
  }

  lemma {:induction false} DistinctFirsts(used: seq<(Hash, Hash)>, hs: set<Hash>)
    requires forall i, j :: 0 <= i < j < |used| ==> used[i].0 != used[j].0
    requires forall i :: 0 <= i < |used| ==> used[i].0 in hs
    ensures |used| <= |hs|
  {
    if used != [] {
      DistinctFirsts(used[1..], hs - {used[0].0});
    }
  }

  /** Successful email steps plus tokens still stored never exceed the tokens created. */
  lemma SuccessesAndLiveTokens(ds: seq<Desk>, steps: seq<Step>, max: nat, i: nat)
    requires IsRun(ds, steps, max) && max >= 1 && i < |ds|
    ensures |ds[i].used| + |ds[i].rows| <= |ds[i].born|
  {
    RunInv(ds, steps, max, i);
    var d := ds[i];
    assert d.rows.Keys <= d.born.Keys;
    DistinctFirsts(d.used, d.born.Keys - d.rows.Keys);
    assert |d.born.Keys - d.rows.Keys| == |d.born.Keys| - |d.rows.Keys|;
  }
}
