// What sign-in tokens guarantee over runs: purging is invisible to the sign-in service
// (internals/app/auth/service.go), guesses are bounded, and a token signs in once, in its own
// browser.
module SignIn {
  import opened MagicTokens

  // --- the service's answers -------------------------------------------------------------------

  datatype Answer =
    | Shown(user: UserId, sameBrowser: bool)
    | SessionFor(user: UserId)
    | InvalidToken
    | WrongBrowser
    | InvalidCode
    | Sent

  /** The hash of a browser nonce, and the HMAC of a typed code over a token hash. */
  datatype Keys = Keys(sha: string -> Hash, codeMac: (Hash, string) -> Hash)

  /** One call to the sign-in service, or one purge. The address in CompleteWithCode has been
      resolved to its account, and the code trimmed. */
  datatype Call =
    | RequestLink(h: Hash, token: Token)
    | Peek(h: Hash, nonce: string)
    | Complete(h: Hash, nonce: string)
    | CompleteWithCode(user: UserId, code: string, nonce: string)
    | Purge

  datatype Timed = Timed(at: Time, call: Call)

  /** maxCodeAttempts */
  const MAX_ATTEMPTS: nat := 5

  predicate IsSixDigits(s: string) {
    |s| == 6 && forall i :: 0 <= i < 6 ==> '0' <= s[i] <= '9'
  }

  function Typed(k: Keys, code: string): Match {
    (h, stored) => k.codeMac(h, code) == stored
  }

  function AnswerOf(k: Keys, t: Table, c: Timed): Answer {
    match c.call
    case RequestLink(h, token) => Sent
    case Peek(h, nonce) => (
      match PeekResult(t, h, c.at)
      case Found(token) => Shown(token.user, nonce != "" && token.browser != "" && token.browser == k.sha(nonce))
      case PeekNotFound => InvalidToken
      case PeekExpired => InvalidToken
    )
    case Complete(h, nonce) =>
      if nonce == "" then WrongBrowser
      else (
        match ConsumeResult(t, h, k.sha(nonce), c.at)
        case SignedIn(user) => SessionFor(user)
        case OtherBrowser => WrongBrowser
        case NotFound => InvalidToken
        case Expired => InvalidToken
      )
    case CompleteWithCode(user, code, nonce) =>
      if !IsSixDigits(code) || nonce == "" then InvalidCode
      else if CodeResult(t, user, k.sha(nonce), Typed(k, code), c.at).CodeOk? then SessionFor(user)
      else InvalidCode
    case Purge => Sent
  }

  function TableAfter(k: Keys, t: Table, c: Timed): Table {
    match c.call
    case RequestLink(h, token) => t[h := token]
    case Peek(h, nonce) => t
    case Complete(h, nonce) => if nonce == "" then t else ConsumeTable(t, h, k.sha(nonce), c.at)
    case CompleteWithCode(user, code, nonce) =>
      if !IsSixDigits(code) || nonce == "" then t
      else CodeTable(t, user, k.sha(nonce), Typed(k, code), MAX_ATTEMPTS, c.at)
    case Purge => Purged(t, c.at)
  }

  // --- what the answers mean -------------------------------------------------------------------

  /** Peek shows the account of a stored token until and including its last instant, and whether it
      is this browser's. */
  lemma PeekShowsIff(k: Keys, t: Table, h: Hash, nonce: string, at: Time)
    ensures var a := AnswerOf(k, t, Timed(at, Peek(h, nonce)));
      if h in t && at <= t[h].expiresAt then
        a == Shown(t[h].user, nonce != "" && t[h].browser != "" && t[h].browser == k.sha(nonce))
      else a == InvalidToken
  {
  }

  /** The link signs in the account it was sent to exactly in time and in the browser it was asked
      for in. Another browser learns no more than that, and whatever is not stored or is over is
      invalid. */
  lemma LinkSignsInIff(k: Keys, t: Table, h: Hash, nonce: string, at: Time, user: UserId)
    ensures var a := AnswerOf(k, t, Timed(at, Complete(h, nonce)));
      && (a == SessionFor(user) <==>
            && nonce != "" && h in t && t[h].user == user && at <= t[h].expiresAt
            && t[h].browser != "" && t[h].browser == k.sha(nonce))
      && (a == InvalidToken <==> nonce != "" && (h in t ==> at > t[h].expiresAt))
      && (a.SessionFor? || a == InvalidToken || a == WrongBrowser)
  {
  }

  /** A stored token of this account, asked for in this browser and not over, whose code the typed
      one is. */
  ghost predicate CodeFits(k: Keys, t: Table, user: UserId, code: string, browser: Hash, at: Time, h: Hash) {
    && h in t && t[h].user == user && t[h].browser == browser && t[h].expiresAt > at
    && t[h].code != "" && t[h].code == k.codeMac(h, code)
  }

  /** A code signs in exactly if it is six digits, the browser has a nonce, and it is the code of a
      live token of the account asked for in that browser. Everything else is an invalid code. */
  lemma CodeSignsInIff(k: Keys, t: Table, user: UserId, code: string, nonce: string, at: Time)
    ensures var a := AnswerOf(k, t, Timed(at, CompleteWithCode(user, code, nonce)));
      && (a == SessionFor(user) <==>
            && |code| == 6 && (forall i :: 0 <= i < 6 ==> '0' <= code[i] <= '9')
            && nonce != "" && k.sha(nonce) != ""
            && exists h :: CodeFits(k, t, user, code, k.sha(nonce), at, h))
      && (a == SessionFor(user) || a == InvalidCode)
  {
    var b := k.sha(nonce);
    forall h ensures CodeFits(k, t, user, code, b, at, h) <==>
                       h in Candidates(t, user, b, at) && Accepts(t, Typed(k, code), h)
    {
    }
  }

  /** Signing in by link spends that token and no other; every other answer spends none. */
  lemma LinkSpends(k: Keys, t: Table, h: Hash, nonce: string, at: Time)
    ensures var c := Timed(at, Complete(h, nonce));
      TableAfter(k, t, c) == if AnswerOf(k, t, c).SessionFor? then t - {h} else t
  {
  }

  /** Signing in by code spends every token of the account from this browser, live or not, and no
      other. */
  lemma CodeSpends(k: Keys, t: Table, user: UserId, code: string, nonce: string, at: Time, h: Hash)
    requires AnswerOf(k, t, Timed(at, CompleteWithCode(user, code, nonce))) == SessionFor(user)
    ensures var u := TableAfter(k, t, Timed(at, CompleteWithCode(user, code, nonce)));
      && (h in u <==> h in t && !(t[h].user == user && t[h].browser == k.sha(nonce)))
      && (h in u ==> u[h] == t[h])
  {
  }

  /** A wrong code of six digits counts once against each live token of the account from this
      browser and removes those it is the fifth for; nothing else changes. */
  lemma WrongCodeCounts(k: Keys, t: Table, user: UserId, code: string, nonce: string, at: Time, h: Hash)
    requires AnswerOf(k, t, Timed(at, CompleteWithCode(user, code, nonce))) == InvalidCode && h in t
    ensures var u := TableAfter(k, t, Timed(at, CompleteWithCode(user, code, nonce)));
      if |code| == 6 && (forall i :: 0 <= i < 6 ==> '0' <= code[i] <= '9') && nonce != "" && k.sha(nonce) != ""
         && t[h].user == user && t[h].browser == k.sha(nonce) && t[h].expiresAt > at then
        if t[h].attempts >= 4 then h !in u else h in u && u[h] == t[h].(attempts := t[h].attempts + 1)
      else h in u && u[h] == t[h]
  {
    var b := k.sha(nonce);
    assert h in Candidates(t, user, b, at) <==> Candidate(t, user, b, at, h);
  }

  /** A purge takes what was over before its instant, and only that. */
  lemma PurgeTakes(k: Keys, t: Table, at: Time, h: Hash)
    ensures var u := TableAfter(k, t, Timed(at, Purge));
      (h in u <==> h in t && t[h].expiresAt >= at) && (h in u ==> u[h] == t[h])
  {
  }

  /** The answers to everything but the purges. */
  function Answers(k: Keys, t: Table, calls: seq<Timed>): seq<Answer>
    decreases |calls|
  {
    if calls == [] then []
    else
      var rest := Answers(k, TableAfter(k, t, calls[0]), calls[1..]);
      if calls[0].call.Purge? then rest else [AnswerOf(k, t, calls[0])] + rest
  }

  function WithoutPurges(calls: seq<Timed>): seq<Timed> {
    if calls == [] then []
    else if calls[0].call.Purge? then WithoutPurges(calls[1..])
    else [calls[0]] + WithoutPurges(calls[1..])
  }

  /** The clock does not go back, and new token hashes (of 32 random bytes) are new. */
  ghost predicate WellTimed(now: Time, taken: set<Hash>, calls: seq<Timed>)
    decreases |calls|
  {
    calls == [] ||
    (&& now <= calls[0].at
     && (calls[0].call.RequestLink? ==> calls[0].call.h !in taken)
     && WellTimed(calls[0].at, if calls[0].call.RequestLink? then taken + {calls[0].call.h} else taken, calls[1..]))
  }

  // --- purging is invisible ----------------------------------------------------------------------

  /** kept is full without some rows that had expired strictly before now. */
  ghost predicate PurgedFrom(now: Time, full: Table, kept: Table) {
    && (forall h :: h in kept ==> h in full && full[h] == kept[h])
    && (forall h :: h in full && h !in kept ==> full[h].expiresAt < now)
  }

  lemma SameAnswer(k: Keys, now: Time, full: Table, kept: Table, c: Timed)
    requires PurgedFrom(now, full, kept) && now <= c.at && !c.call.Purge?
    ensures AnswerOf(k, kept, c) == AnswerOf(k, full, c)
  {
    if c.call.CompleteWithCode? {
      var b := k.sha(c.call.nonce);
      assert Candidates(kept, c.call.user, b, c.at) == Candidates(full, c.call.user, b, c.at);
      assert forall h :: h in Candidates(full, c.call.user, b, c.at) ==>
          (Accepts(kept, Typed(k, c.call.code), h) <==> Accepts(full, Typed(k, c.call.code), h));
    }
  }

  lemma SimulationStep(k: Keys, now: Time, full: Table, kept: Table, c: Timed)
    requires PurgedFrom(now, full, kept) && now <= c.at
    requires c.call.RequestLink? ==> c.call.h !in full
    ensures var full' := if c.call.Purge? then full else TableAfter(k, full, c);
      PurgedFrom(c.at, full', TableAfter(k, kept, c))
  {
    if c.call.CompleteWithCode? {
      SameAnswer(k, now, full, kept, c);
      var b := k.sha(c.call.nonce);
      assert Candidates(kept, c.call.user, b, c.at) == Candidates(full, c.call.user, b, c.at);
      assert forall h :: h in Candidates(full, c.call.user, b, c.at) ==>
          (Accepts(kept, Typed(k, c.call.code), h) <==> Accepts(full, Typed(k, c.call.code), h));
      assert CodeResult(kept, c.call.user, b, Typed(k, c.call.code), c.at) ==
          CodeResult(full, c.call.user, b, Typed(k, c.call.code), c.at);
      assert forall h :: h in kept ==>
          (Candidate(kept, c.call.user, b, c.at, h) <==> Candidate(full, c.call.user, b, c.at, h));
    }
  }

  lemma {:induction false} Simulation(k: Keys, now: Time, full: Table, kept: Table, taken: set<Hash>, calls: seq<Timed>)
    requires PurgedFrom(now, full, kept) && full.Keys <= taken && WellTimed(now, taken, calls)
    ensures Answers(k, kept, calls) == Answers(k, full, WithoutPurges(calls))
    decreases |calls|
  {
    if calls != [] {
      var c := calls[0];
      SimulationStep(k, now, full, kept, c);
      if c.call.Purge? {
        Simulation(k, c.at, full, TableAfter(k, kept, c), taken, calls[1..]);
      } else {
        SameAnswer(k, now, full, kept, c);
        var taken' := if c.call.RequestLink? then taken + {c.call.h} else taken;
        NoNewHashes(k, full, c);
        Simulation(k, c.at, TableAfter(k, full, c), TableAfter(k, kept, c), taken', calls[1..]);
        assert ([c] + WithoutPurges(calls[1..]))[1..] == WithoutPurges(calls[1..]);
      }
    }
  }

  lemma NoNewHashes(k: Keys, t: Table, c: Timed)
    ensures TableAfter(k, t, c).Keys <= t.Keys + (if c.call.RequestLink? then {c.call.h} else {})
  {
  }

  /** Purges may be inserted anywhere in a run, any number of them: every call to Peek, Complete
      and CompleteWithCode is answered the same. */
  lemma PurgingIsInvisible(k: Keys, now: Time, t: Table, calls: seq<Timed>, other: seq<Timed>)
    requires WellTimed(now, t.Keys, calls) && WellTimed(now, t.Keys, other)
    requires WithoutPurges(calls) == WithoutPurges(other)
    ensures Answers(k, t, calls) == Answers(k, t, other)
  {
    Simulation(k, now, t, t, t.Keys, calls);
    Simulation(k, now, t, t, t.Keys, other);
  }

  /** The three boundary tests at the very instant of expiry: the link still works, the code does
      not, and a purge keeps the row - one tick later the purge may take it and neither works. */
  lemma AtTheInstantOfExpiry(t: Table, h: Hash, accept: Match)
    requires h in t && t[h].browser != ""
    ensures var e, b := t[h].expiresAt, t[h].browser;
      && ConsumeResult(t, h, b, e) == SignedIn(t[h].user)
      && !Candidate(t, t[h].user, b, e, h)
      && h in Purged(t, e) && h !in Purged(t, e + 1)
      && ConsumeResult(t, h, b, e + 1) == Expired && ConsumeResult(Purged(t, e + 1), h, b, e + 1) == NotFound
  {
  }
}
