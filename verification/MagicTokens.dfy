// Sign-in tokens (internals/app/magic_token/repo.go): the table, each repository method as one
// atomic function on it, and the repository object. token_hash is unique, so rows are keyed by it.
module MagicTokens {

  type Time = int
  type Hash = string
  type UserId = string

  datatype Token = Token(user: UserId, expiresAt: Time, browser: Hash, code: Hash, attempts: nat)

  type Table = map<Hash, Token>

  /** Does the code the visitor typed belong to this row? (an HMAC over its token hash) */
  type Match = (Hash, Hash) -> bool

  datatype Consumed = SignedIn(user: UserId) | NotFound | Expired | OtherBrowser
  datatype ByCode = CodeOk | NoCandidate | BadCode
  datatype Peeked = Found(token: Token) | PeekNotFound | PeekExpired

  // --- the methods as functions ------------------------------------------------------------

  function ConsumeResult(t: Table, h: Hash, browser: Hash, now: Time): Consumed {
    if h !in t then NotFound
    else if now > t[h].expiresAt then Expired
    else if t[h].browser == "" || t[h].browser != browser then OtherBrowser
    else SignedIn(t[h].user)
  }

  function ConsumeTable(t: Table, h: Hash, browser: Hash, now: Time): Table {
    if ConsumeResult(t, h, browser, now).SignedIn? then t - {h} else t
  }

  function PeekResult(t: Table, h: Hash, now: Time): Peeked {
    if h !in t then PeekNotFound else if now > t[h].expiresAt then PeekExpired else Found(t[h])
  }

  predicate Candidate(t: Table, user: UserId, browser: Hash, now: Time, h: Hash) {
    h in t && t[h].user == user && t[h].browser == browser && t[h].expiresAt > now
  }

  predicate Accepts(t: Table, accept: Match, h: Hash) {
    h in t && t[h].code != "" && accept(h, t[h].code)
  }

  function Candidates(t: Table, user: UserId, browser: Hash, now: Time): set<Hash> {
    set h | h in t && Candidate(t, user, browser, now, h)
  }

  predicate Matched(t: Table, user: UserId, browser: Hash, accept: Match, now: Time) {
    exists h :: h in Candidates(t, user, browser, now) && Accepts(t, accept, h)
  }

  function CodeResult(t: Table, user: UserId, browser: Hash, accept: Match, now: Time): ByCode {
    if browser == "" || Candidates(t, user, browser, now) == {} then NoCandidate
    else if Matched(t, user, browser, accept, now) then CodeOk
    else BadCode
  }

  /** A match spends every token of this browser, expired ones too; a wrong code counts against
      each candidate and removes those that reach the limit. */
  function CodeTable(t: Table, user: UserId, browser: Hash, accept: Match, max: nat, now: Time): Table {
    match CodeResult(t, user, browser, accept, now)
    case NoCandidate => t
    case CodeOk => map h | h in t && !(t[h].user == user && t[h].browser == browser) :: t[h]
    case BadCode =>
      map h | h in t && !(Candidate(t, user, browser, now, h) && t[h].attempts + 1 >= max) ::
        if Candidate(t, user, browser, now, h) then t[h].(attempts := t[h].attempts + 1) else t[h]
  }

  function Purged(t: Table, now: Time): Table {
    map h | h in t && !(t[h].expiresAt < now) :: t[h]
  }

  // --- the repository object -----------------------------------------------------------------

  class MagicTokenRepo {
    var rows: Table

    constructor ()
      ensures rows == map[]
    {
      rows := map[];
    }

    /** Create fails on a token hash that is already stored (unique column). */
    method Create(h: Hash, token: Token) returns (ok: bool)
      modifies this
      ensures ok == (h !in old(rows))
      ensures rows == if ok then old(rows)[h := token] else old(rows)
    {
      ok := h !in rows;
      if ok {
        rows := rows[h := token];
      }
    }

    method Consume(h: Hash, browser: Hash, now: Time) returns (r: Consumed)
      modifies this
      ensures r == ConsumeResult(old(rows), h, browser, now)
      ensures rows == ConsumeTable(old(rows), h, browser, now)
    {
      if h !in rows {
        return NotFound;
      }
      var mt := rows[h];
      if now > mt.expiresAt {
        return Expired;
      }
      if mt.browser == "" || mt.browser != browser {
        return OtherBrowser;
      }
      rows := rows - {h};
      return SignedIn(mt.user);
    }

    method Peek(h: Hash, now: Time) returns (r: Peeked)
      ensures r == PeekResult(rows, h, now)
    {
      if h !in rows {
        return PeekNotFound;
      }
      if now > rows[h].expiresAt {
        return PeekExpired;
      }
      return Found(rows[h]);
    }

    /** The candidate query; rows come back in no promised order. */
    method SelectCandidates(user: UserId, browser: Hash, now: Time) returns (cands: seq<Hash>)
      ensures forall h :: h in cands <==> Candidate(rows, user, browser, now, h)
      ensures forall i, j :: 0 <= i < j < |cands| ==> cands[i] != cands[j]
    {
      var left := Candidates(rows, user, browser, now);
      cands := [];
      while left != {}
        invariant forall h :: h in cands || h in left <==> Candidate(rows, user, browser, now, h)
        invariant forall h :: h in cands ==> h !in left
        invariant forall i, j :: 0 <= i < j < |cands| ==> cands[i] != cands[j]
        decreases left
      {
        var h :| h in left;
        cands := cands + [h];
        left := left - {h};
      }
    }

    method ConsumeByCode(user: UserId, browser: Hash, accept: Match, max: nat, now: Time) returns (r: ByCode)
      modifies this
      ensures r == CodeResult(old(rows), user, browser, accept, now)
      ensures rows == CodeTable(old(rows), user, browser, accept, max, now)
    {
      if browser == "" {
        return NoCandidate;
      }
      var cands := SelectCandidates(user, browser, now);
      assert forall h :: h in Candidates(rows, user, browser, now) <==> h in cands;
      if |cands| == 0 {
        return NoCandidate;
      }
      assert cands[0] in Candidates(rows, user, browser, now);
      var matched := AnyMatch(cands, accept);
      assert matched == Matched(rows, user, browser, accept, now);
      if matched {
        rows := map h | h in rows && !(rows[h].user == user && rows[h].browser == browser) :: rows[h];
        return CodeOk;
      }
      CountAttempts(cands, max);
      return BadCode;
    }

    method AnyMatch(cands: seq<Hash>, accept: Match) returns (matched: bool)
      requires forall h :: h in cands ==> h in rows
      ensures matched <==> exists h :: h in cands && Accepts(rows, accept, h)
    {
      matched := false;
      var i := 0;
      while i < |cands|
        invariant 0 <= i <= |cands|
        invariant !matched
        invariant forall k :: 0 <= k < i ==> !Accepts(rows, accept, cands[k])
      {
        if rows[cands[i]].code != "" && accept(cands[i], rows[cands[i]].code) {
          assert Accepts(rows, accept, cands[i]);
          return true;
        }
        i := i + 1;
      }
    }

    method CountAttempts(cands: seq<Hash>, max: nat)
      requires forall h :: h in cands ==> h in rows
      requires forall i, j :: 0 <= i < j < |cands| ==> cands[i] != cands[j]
      modifies this
      ensures rows == map h | h in old(rows) && !(h in cands && old(rows)[h].attempts + 1 >= max) ::
        if h in cands then old(rows)[h].(attempts := old(rows)[h].attempts + 1) else old(rows)[h]
    {
      var i := 0;
      while i < |cands|
        invariant 0 <= i <= |cands|
        invariant rows == map h | h in old(rows) && !(h in cands[..i] && old(rows)[h].attempts + 1 >= max) ::
          if h in cands[..i] then old(rows)[h].(attempts := old(rows)[h].attempts + 1) else old(rows)[h]
      {
        var h := cands[i];
        assert h in rows && rows[h] == old(rows)[h];
        assert forall x :: x in cands[..i + 1] <==> x in cands[..i] || x == h;
        if rows[h].attempts + 1 >= max {
          rows := rows - {h};
        } else {
          rows := rows[h := rows[h].(attempts := rows[h].attempts + 1)];
        }
        i := i + 1;
      }
      assert cands[..i] == cands;
    }

    method DeleteExpired(now: Time) returns (n: nat)
      modifies this
      ensures rows == Purged(old(rows), now)
      ensures n == |old(rows).Keys - rows.Keys|
    {
      var before := rows.Keys;
      rows := map h | h in rows && !(rows[h].expiresAt < now) :: rows[h];
      n := |before - rows.Keys|;
    }
  }
}
