// Invariants of the payment calls under free interleaving, and what they give: a paid row stays
// paid, was collected by Stripe, and is the only way to an original link.
module PaymentSafety {
  import opened Payments

  predicate SameTerms(a: Payment, b: Payment) {
    a.id == b.id && a.job == b.job && a.amount == b.amount && a.currency == b.currency
  }

  /** The intent p refers to succeeded and collected what p asked for. */
  predicate Collected(s: Ledger, p: Payment) {
    p.ref != "" && p.ref in s.intents && s.intents[p.ref].status.Succeeded? && CoversPayment(s.intents[p.ref], p)
  }

  /** p is a copy of its row: the terms agree, and the row still has p's ref - or its job is gone. */
  predicate Tracks(s: Ledger, p: Payment) {
    && p.id in s.used
    && (p.id in s.rows ==> SameTerms(p, s.rows[p.id]) && s.rows[p.id].ref == p.ref)
    && (p.id !in s.rows ==> p.job !in s.jobs)
    && p.job in s.owner.Values
  }

  /** A row no paying path can reach yet: nothing has written its ref. */
  predicate Unreachable(s: Ledger, p: Payment) {
    && p.status.Pending? && p.id in s.used
    && (p.id in s.rows ==> SameTerms(p, s.rows[p.id]) && s.rows[p.id].ref == "" && s.rows[p.id].status.Pending?)
  }

  ghost predicate CallOk(s: Ledger, call: Call) {
    match call
    case CreateList(job) => true
    case CreateRetrieve(job, p) => true
    case CreateRow(job) => true
    case CreateStripe(p) => Unreachable(s, p) && p.ref == ""
    case CreateWrite(p) =>
      Unreachable(s, p) && p.ref != "" && p.ref in s.intents && forall id :: id in s.rows ==> s.rows[id].ref != p.ref
    case StatusList(job, a) => a in s.owner && s.owner[a] == job
    case StatusRetrieve(a, p) => a in s.owner && s.owner[a] == p.job && p.ref != "" && Tracks(s, p)
    case StatusWrite(a, p) =>
      a in s.owner && s.owner[a] == p.job && p.status.Paid? && Collected(s, p) && Tracks(s, p)
    case HookFind(i, event) => i != "" && i in s.intents && s.intents[i] == event && event.status.Succeeded?
    case HookWrite(p) => p.status.Paid? && Collected(s, p) && Tracks(s, p)
  }

  predicate Creating(call: Call) {
    call.CreateStripe? || call.CreateWrite?
  }

  ghost predicate Rows(s: Ledger) {
    && "" !in s.intents
    && (forall id :: id in s.rows ==>
          && s.rows[id].id == id && id in s.used && s.rows[id].job in s.jobs
          && (s.rows[id].ref != "" ==> s.rows[id].ref in s.intents)
          && (s.rows[id].status.Paid? ==> Collected(s, s.rows[id])))
    && s.jobs <= s.owner.Values
  }

  ghost predicate RefsUnique(s: Ledger) {
    forall x, y :: x in s.rows && y in s.rows && s.rows[x].ref != "" && s.rows[x].ref == s.rows[y].ref ==> x == y
  }

  /** No two calls are creating the same row or writing the same ref. */
  ghost predicate CreatorsApart(s: Ledger) {
    (forall o, u :: o in s.calls && u in s.calls && o != u && Creating(s.calls[o]) && Creating(s.calls[u]) ==>
          s.calls[o].p.id != s.calls[u].p.id && (s.calls[o].p.ref != "" ==> s.calls[o].p.ref != s.calls[u].p.ref))
  }

  ghost predicate Calls(s: Ledger) {
    (forall o :: o in s.calls ==> CallOk(s, s.calls[o])) && CreatorsApart(s)
  }

  /** A payment behind an original link: collected, and recorded as paid unless that write failed. */
  predicate Behind(s: Ledger, id: PayId, job: JobId) {
    && id in s.rows && s.rows[id].job == job && Collected(s, s.rows[id])
    && (s.rows[id].status.Paid? || id in s.failedWrites)
  }

  ghost predicate PaidFor(s: Ledger, a: AssetId) {
    a in s.owner && (s.owner[a] in s.jobs ==> exists id :: Behind(s, id, s.owner[a]))
  }

  ghost predicate Claims(s: Ledger) {
    forall c :: c in s.claims && c.purpose == Original() ==> PaidFor(s, c.subject)
  }

  ghost predicate Inv(s: Ledger) {
    Rows(s) && RefsUnique(s) && Calls(s) && Claims(s)
  }

  // --- how the tables may move while a call is waiting --------------------------------------

  /** Rows keep their terms and, once set, their ref and their paid status; only rows in
      `own` may get a ref; rows go only with their job; ids and jobs are not reused. */
  ghost predicate Evolves(s: Ledger, t: Ledger, own: set<PayId>) {
    && (forall id :: id in t.rows && id in s.rows ==>
          && SameTerms(s.rows[id], t.rows[id])
          && (s.rows[id].ref != "" ==> t.rows[id].ref == s.rows[id].ref)
          && (s.rows[id].status.Paid? ==> t.rows[id].status.Paid?)
          && (s.rows[id].ref == "" && id !in own ==> t.rows[id].ref == "" && t.rows[id].status == s.rows[id].status))
    && (forall id :: id in t.rows && id !in s.rows ==>
        id !in s.used && t.rows[id].ref == "" && !t.rows[id].status.Paid?)
    && (forall id :: id in s.rows && id !in t.rows ==> s.rows[id].job !in t.jobs)
    && (forall j :: j in t.jobs && j !in s.jobs ==> j !in s.owner.Values)
    && (forall i :: i in s.intents ==>
          i in t.intents && (s.intents[i].status.Succeeded? ==> t.intents[i] == s.intents[i]))
    && (forall a :: a in s.owner ==> a in t.owner && t.owner[a] == s.owner[a])
    && s.used <= t.used && s.failedWrites <= t.failedWrites
  }

  /** A waiting call's facts survive, if it is not creating one of the rows being given a ref
      and the ref being given is not its own. */
  lemma CallSurvives(s: Ledger, t: Ledger, own: set<PayId>, call: Call)
    requires Evolves(s, t, own) && CallOk(s, call)
    requires Creating(call) ==> call.p.id !in own
    requires call.CreateWrite? ==> forall id :: id in t.rows ==> t.rows[id].ref != call.p.ref
    ensures CallOk(t, call)
  {
    if call.StatusList? || call.StatusRetrieve? || call.StatusWrite? {
      assert s.owner[call.original] in t.owner.Values;
    }
    if call.StatusRetrieve? || call.StatusWrite? || call.HookWrite? {
      var a :| a in s.owner && s.owner[a] == call.p.job;
      assert t.owner[a] == call.p.job;
    }
  }

  lemma PaidForSurvives(s: Ledger, t: Ledger, own: set<PayId>, a: AssetId)
    requires Evolves(s, t, own) && PaidFor(s, a)
    ensures PaidFor(t, a)
  {
    if s.owner[a] in t.jobs {
      assert s.owner[a] in s.owner.Values;
      var id :| Behind(s, id, s.owner[a]);
      assert Behind(t, id, s.owner[a]);
    }
  }

  /** Untouched calls and signed claims after a step that changed the tables. */
  lemma Survive(s: Ledger, t: Ledger, own: set<PayId>)
    requires Inv(s) && Evolves(s, t, own)
    requires forall o :: o in s.calls && Creating(s.calls[o]) ==> s.calls[o].p.id !in own
    requires forall o, id :: o in s.calls && s.calls[o].CreateWrite? && id in t.rows ==>
        t.rows[id].ref != s.calls[o].p.ref
    ensures forall o :: o in s.calls ==> CallOk(t, s.calls[o])
    ensures forall c :: c in s.claims && c.purpose == Original() ==> PaidFor(t, c.subject)
  {
    forall o | o in s.calls ensures CallOk(t, s.calls[o]) {
      CallSurvives(s, t, own, s.calls[o]);
    }
    forall c | c in s.claims && c.purpose == Original() ensures PaidFor(t, c.subject) {
      PaidForSurvives(s, t, own, c.subject);
    }
  }
}
