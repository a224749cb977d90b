// The payment repository and the three service calls of internals/app/payment, each run without
// interruption. Stripe's answers and database failures are parameters. Payments.dfy interleaves
// the same calls.
module PaymentService {
  import opened Basics
  import opened Payments
  import Listings

  ghost predicate HasPaid(rows: map<PayId, Payment>, job: JobId) {
    exists id :: id in rows && rows[id].job == job && rows[id].status.Paid?
  }

  lemma PaidInListing(rows: map<PayId, Payment>, job: JobId, list: seq<Payment>)
    requires IsListing(rows, job, list)
    ensures HasPaid(rows, job) <==> FirstPaid(list) < |list|
  {
    if HasPaid(rows, job) {
      var id :| id in rows && rows[id].job == job && rows[id].status.Paid?;
      var k :| 0 <= k < |list| && list[k] == rows[id];
    }
    if FirstPaid(list) < |list| {
      assert list[FirstPaid(list)].id in rows;
    }
  }

  /** One of the job's latest payments. */
  ghost predicate Newest(rows: map<PayId, Payment>, job: JobId, id: PayId) {
    id in rows && rows[id].job == job && forall x :: x in rows && rows[x].job == job ==>
        rows[x].createdAt <= rows[id].createdAt
  }

  lemma FirstIsNewest(rows: map<PayId, Payment>, job: JobId, list: seq<Payment>)
    requires IsListing(rows, job, list) && list != []
    ensures Newest(rows, job, list[0].id) && rows[list[0].id] == list[0]
  {
    forall x | x in rows && rows[x].job == job ensures rows[x].createdAt <= list[0].createdAt {
      var k :| 0 <= k < |list| && list[k] == rows[x];
    }
  }

  /** Stripe says p's intent succeeded and collected what p asked for. */
  ghost predicate Confirms(p: Payment, answer: Option<Intent>) {
    p.status.Pending? && p.ref != "" && answer.Some? && answer.value.status.Succeeded? && PaysInFull(answer.value, p)
  }

  /** The row with id was pending and is now paid; nothing else changed. */
  ghost predicate OnePaid(before: map<PayId, Payment>, after: map<PayId, Payment>, id: PayId) {
    id in before && before[id].status.Pending? && after == before[id := before[id].(status := Paid)]
  }

  /** The row with this intent's ref, not paid before and covered by the event, is now paid. */
  ghost predicate HookPaid(before: map<PayId, Payment>, after: map<PayId, Payment>, id: PayId, intent: IntentId,
      event: Intent) {
    && id in before && before[id].ref == intent && !before[id].status.Paid? && PaysInFull(event, before[id])
    && after == before[id := before[id].(status := Paid)]
  }

  /** An intent Stripe still takes a confirmation on, for this amount and currency. */
  predicate StillOpen(it: Intent, cents: int, currency: string) {
    && it.status in {RequiresPaymentMethod, RequiresConfirmation, RequiresAction}
    && it.secret != "" && it.amount == cents && it.currency == currency
  }

  lemma ReusableIff(price: Price, it: Intent)
    ensures Reusable(price, it) <==> StillOpen(it, price.cents, price.currency)
  {
  }

  /** Each of the job's latest payments waits for an intent, and Stripe still takes one. */
  ghost predicate NewestReusable(rows: map<PayId, Payment>, job: JobId, answer: Option<Intent>, price: Price) {
    && answer.Some? && StillOpen(answer.value, price.cents, price.currency)
    && (exists id :: Newest(rows, job, id))
    && forall id :: Newest(rows, job, id) ==> rows[id].status.Pending? && rows[id].ref != ""
  }

  /** Stripe confirms every one of the job's latest payments - there is more than one only if they
      were created at the same instant. */
  ghost predicate NewestConfirmed(rows: map<PayId, Payment>, job: JobId, answer: Option<Intent>) {
    && (exists id :: Newest(rows, job, id))
    && forall id :: Newest(rows, job, id) ==> Confirms(rows[id], answer)
  }

  ghost predicate Known(rows: map<PayId, Payment>, intent: IntentId) {
    exists id :: id in rows && rows[id].ref == intent
  }

  /** Each row with the intent's ref is unpaid and the event pays it in full. */
  ghost predicate PaysAll(rows: map<PayId, Payment>, intent: IntentId, event: Intent) {
    forall id :: id in rows && rows[id].ref == intent ==> !rows[id].status.Paid? && PaysInFull(event, rows[id])
  }

  /** Each row with the intent's ref is paid already, or the event does not pay it in full. */
  ghost predicate PaysNone(rows: map<PayId, Payment>, intent: IntentId, event: Intent) {
    forall id :: id in rows && rows[id].ref == intent ==> rows[id].status.Paid? || !PaysInFull(event, rows[id])
  }

  method PaidPayment(payments: seq<Payment>) returns (i: nat)
    ensures i == FirstPaid(payments)
  {
    i := 0;
    while i < |payments| && !payments[i].status.Paid?
      invariant i <= |payments|
      invariant FirstPaid(payments) == i + FirstPaid(payments[i..])
    {
      i := i + 1;
    }
  }

  datatype Answer = AlreadyPaid | NotCreated | Reused(secret: string) | Created(secret: string)
  datatype StatusAnswer = Unpaid(amount: int, currency: string) | Unlocked(amount: int, currency: string)
  datatype HookAnswer = Disabled | Rejected | Acknowledged | Retry

  /** What arrives at the webhook: a payload that may not verify, be of another type or not decode. */
  datatype Delivery = Delivery(secretSet: bool, signatureOk: bool, succeededEvent: bool, decodes: bool)

  /** The delivery carries an intent to look at. */
  predicate Carries(d: Delivery) {
    d.secretSet && d.signatureOk && d.succeededEvent && d.decodes
  }

  predicate Honours(d: Delivery, event: Intent) {
    Carries(d) && event.status.Succeeded?
  }

  class PaymentRepo {
    var rows: map<PayId, Payment>

    constructor ()
      ensures rows == map[]
    {
      rows := map[];
    }

    method Create(p: Payment, id: PayId, at: int, ok: bool)
      requires id !in rows
      modifies this
      ensures rows == if ok then old(rows)[id := p.(id := id, createdAt := at)] else old(rows)
    {
      if ok {
        rows := rows[id := p.(id := id, createdAt := at)];
      }
    }

    /** Every payment of the job, newest first. */
    method ListByJob(job: JobId) returns (list: seq<Payment>)
      requires Listings.WellKeyed(rows, IdOf)
      ensures IsListing(rows, job, list)
    {
      list := Listings.SelectSorted(rows, IdOf, OfJob(job), NewestFirst);
    }

    /** A payment with this ref, if there is one. */
    method ByProviderRef(ref: IntentId) returns (p: Option<Payment>)
      requires Listings.WellKeyed(rows, IdOf)
      ensures p.Some? ==> p.value.id in rows && rows[p.value.id] == p.value && p.value.ref == ref
      ensures p.None? ==> forall id :: id in rows ==> rows[id].ref != ref
    {
      var todo := rows.Keys;
      while todo != {}
        invariant todo <= rows.Keys
        invariant forall id :: id in rows && id !in todo ==> rows[id].ref != ref
      {
        var id :| id in todo;
        if rows[id].ref == ref {
          return Some(rows[id]);
        }
        todo := todo - {id};
      }
      p := None;
    }

    /** A full-row write: every column of the stored row becomes p's. */
    method Update(p: Payment, ok: bool) returns (done: bool)
      modifies this
      ensures done == (ok && p.id in old(rows))
      ensures rows == if done then old(rows)[p.id := p] else old(rows)
    {
      done := ok && p.id in rows;
      if done {
        rows := rows[p.id := p];
      }
    }
  }

  class PaymentService {
    const repo: PaymentRepo
    const price: Price

    constructor (repo: PaymentRepo, price: Price)
      ensures this.repo == repo && this.price == price
    {
      this.repo, this.price := repo, price;
    }

    /** The secret of the newest pending payment's intent while Stripe still takes a confirmation
        on it. asked is the ref Stripe is asked about, answer what it says. */
    method ReusableIntent(payments: seq<Payment>, answer: Option<Intent>) returns (secret: Option<string>)
      ensures secret.Some? <==>
        && payments != [] && payments[0].status.Pending? && payments[0].ref != ""
        && answer.Some? && StillOpen(answer.value, price.cents, price.currency)
      ensures secret.Some? ==> secret.value == answer.value.secret != ""
    {
      if payments == [] {
        return None;
      }
      var p := payments[0];
      if !p.status.Pending? || p.ref == "" || answer.None? {
        return None;
      }
      var intent := answer.value;
      match intent.status {
        case RequiresPaymentMethod | RequiresConfirmation | RequiresAction =>
          if intent.secret != "" && intent.amount == price.cents && intent.currency == price.currency {
            return Some(intent.secret);
          }
        case _ =>
      }
      secret := None;
    }

    /** A paid job refuses and an open intent is handed back, neither touching a row; otherwise
        exactly one pending row is added. No other row ever changes. */
    method CreateIntent(job: JobId, answer: Option<Intent>, id: PayId, at: int, inserted: bool,
                        made: Option<(IntentId, string)>, written: bool)
      returns (r: Answer)
      requires Listings.WellKeyed(repo.rows, IdOf) && id !in repo.rows
      modifies repo
      ensures r == AlreadyPaid <==> HasPaid(old(repo.rows), job)
      ensures r.AlreadyPaid? || r.Reused? ==> repo.rows == old(repo.rows)
      ensures r.Reused? ==>
        answer.Some? && r.secret == answer.value.secret && StillOpen(answer.value, price.cents, price.currency)
      ensures r.Reused? ==> exists x ::
        Newest(old(repo.rows), job, x) && old(repo.rows)[x].status.Pending? && old(repo.rows)[x].ref != ""
      ensures !HasPaid(old(repo.rows), job) && NewestReusable(old(repo.rows), job, answer, price) ==> r.Reused?
      ensures !HasPaid(old(repo.rows), job) && !r.Reused? && inserted && made.Some? ==> r.Created?
      ensures r.Created? ==> inserted && made.Some? && r.secret == made.value.1
      ensures r.NotCreated? ==> !inserted || made.None?
      ensures r.Created? || r.NotCreated? ==>
        var ref := if made.Some? && written then made.value.0 else "";
        repo.rows == if !inserted then old(repo.rows)
                     else old(repo.rows)[id := Payment(id, job, ref, Pending, price.cents, price.currency, at)]
    {
      var payments := repo.ListByJob(job);
      PaidInListing(repo.rows, job, payments);
      var i := PaidPayment(payments);
      if i < |payments| {
        return AlreadyPaid;
      }
      var secret := ReusableIntent(payments, answer);
      if secret.Some? {
        FirstIsNewest(repo.rows, job, payments);
        return Reused(secret.value);
      }
      var p := Payment("", job, "", Pending, price.cents, price.currency, at);
      repo.Create(p, id, at, inserted);
      if !inserted {
        return NotCreated;
      }
      p := p.(id := id);
      if made.None? {
        return NotCreated;
      }
      p := p.(ref := made.value.0);
      var done := repo.Update(p, written);
      r := Created(made.value.1);
    }

    /** Ask Stripe about a pending row; mark the copy paid, then write it. */
    method Reconcile(p: Payment, answer: Option<Intent>, written: bool) returns (q: Payment)
      requires p.id in repo.rows && repo.rows[p.id] == p && p.status.Pending?
      modifies repo
      ensures var paid := answer.Some? && answer.value.status.Succeeded? && PaysInFull(answer.value, p);
        && q == (if paid then p.(status := Paid) else p)
        && repo.rows == (if paid && written then old(repo.rows)[p.id := q] else old(repo.rows))
    {
      q := p;
      if answer.Some? {
        CoversIff(answer.value, p);
      }
      if answer.None? || !answer.value.status.Succeeded? || !CoversPayment(answer.value, p) {
        return;
      }
      q := p.(status := Paid);
      var done := repo.Update(q, written);
    }

    /** A bought job stays bought whatever its newest attempt looks like; otherwise only the newest
        pending row can become paid, and only if its intent succeeded and covers it. */
    method Status(job: JobId, answer: Option<Intent>, written: bool) returns (r: StatusAnswer)
      requires Listings.WellKeyed(repo.rows, IdOf)
      modifies repo
      ensures HasPaid(old(repo.rows), job) ==> r.Unlocked? && repo.rows == old(repo.rows)
      ensures r.Unlocked? && !HasPaid(old(repo.rows), job) ==> answer.Some? && answer.value.status.Succeeded?
      ensures r.Unlocked? && !HasPaid(old(repo.rows), job) ==>
        exists id :: Newest(old(repo.rows), job, id) && Confirms(old(repo.rows)[id], answer)
            && r == Unlocked(old(repo.rows)[id].amount, old(repo.rows)[id].currency)
            && (if written then OnePaid(old(repo.rows), repo.rows, id) else repo.rows == old(repo.rows))
      ensures HasPaid(old(repo.rows), job) ==> exists id ::
        && id in old(repo.rows) && old(repo.rows)[id].job == job && old(repo.rows)[id].status.Paid?
        && r == Unlocked(old(repo.rows)[id].amount, old(repo.rows)[id].currency)
      ensures r.Unpaid? ==> repo.rows == old(repo.rows)
      ensures (forall id :: id in old(repo.rows) ==> old(repo.rows)[id].job != job) ==>
          r == Unpaid(price.cents, price.currency)
      ensures r.Unpaid? && (exists id :: id in old(repo.rows) && old(repo.rows)[id].job == job) ==>
        exists id :: Newest(old(repo.rows), job, id) && !Confirms(old(repo.rows)[id], answer)
                     && r == Unpaid(old(repo.rows)[id].amount, old(repo.rows)[id].currency)
      ensures NewestConfirmed(old(repo.rows), job, answer) ==> r.Unlocked?
      ensures r.Unlocked? && (written || HasPaid(old(repo.rows), job)) ==> HasPaid(repo.rows, job)
    {
      var payments := repo.ListByJob(job);
      PaidInListing(repo.rows, job, payments);
      if payments == [] {
        return Unpaid(price.cents, price.currency);
      }
      FirstIsNewest(repo.rows, job, payments);
      var i := PaidPayment(payments);
      var p := if i < |payments| then payments[i] else payments[0];
      if i == |payments| && p.status.Pending? && p.ref != "" {
        p := Reconcile(p, answer, written);
        assert written && p.status.Paid? ==> OnePaid(old(repo.rows), repo.rows, p.id);
      }
      r := if p.status.Paid? then Unlocked(p.amount, p.currency) else Unpaid(p.amount, p.currency);
      if r.Unlocked? {
        assert p.id in old(repo.rows) && p.job == job && p.id in repo.rows;
        assert written || HasPaid(old(repo.rows), job) ==> repo.rows[p.id] == p;
      }
    }

    /** Without a secret, a valid signature or a readable event nothing is touched. A row already
        paid, and an event that does not cover its row, are acknowledged without a write; an unknown
        ref or a failed write asks Stripe to deliver again. */
    method Webhook(d: Delivery, intent: IntentId, event: Intent, written: bool) returns (r: HookAnswer)
      requires Listings.WellKeyed(repo.rows, IdOf)
      modifies repo
      ensures r == Disabled <==> !d.secretSet
      ensures r == Rejected <==> d.secretSet && (!d.signatureOk || (d.succeededEvent && !d.decodes))
      ensures !Carries(d) ==> repo.rows == old(repo.rows)
      ensures d.secretSet && d.signatureOk && !d.succeededEvent ==> r == Acknowledged
      ensures Carries(d) && !event.status.Succeeded? ==> r == Acknowledged && repo.rows == old(repo.rows)
      ensures repo.rows != old(repo.rows) ==> r == Acknowledged && event.status.Succeeded?
      ensures repo.rows != old(repo.rows) ==> exists id :: HookPaid(old(repo.rows), repo.rows, id, intent, event)
      ensures Carries(d) && event.status.Succeeded? && r == Acknowledged && repo.rows == old(repo.rows) ==>
        exists id :: id in repo.rows && repo.rows[id].ref == intent
            && (repo.rows[id].status.Paid? || !PaysInFull(event, repo.rows[id]))
      // an event that pays its row in full does pay it when the write works
      ensures Honours(d, event) && Known(old(repo.rows), intent) && PaysAll(old(repo.rows), intent, event) ==>
        if written then r == Acknowledged && exists id :: HookPaid(old(repo.rows), repo.rows, id, intent, event)
        else r == Retry
      ensures Honours(d, event) && Known(old(repo.rows), intent) && PaysNone(old(repo.rows), intent, event) ==>
        r == Acknowledged && repo.rows == old(repo.rows)
      ensures Honours(d, event) && !Known(old(repo.rows), intent) ==> r == Retry
      ensures r == Retry ==> repo.rows == old(repo.rows)
      ensures r == Retry ==> !written || forall id :: id in old(repo.rows) ==> old(repo.rows)[id].ref != intent
    {
      if !d.secretSet {
        return Disabled;
      }
      if !d.signatureOk {
        return Rejected;
      }
      if !d.succeededEvent {
        return Acknowledged;
      }
      if !d.decodes {
        return Rejected;
      }
      if !event.status.Succeeded? {
        return Acknowledged;
      }
      var found := repo.ByProviderRef(intent);
      if found.None? {
        return Retry;
      }
      var p := found.value;
      CoversIff(event, p);
      if p.status.Paid? || !CoversPayment(event, p) {
        return Acknowledged;
      }
      var q := p.(status := Paid);
      var done := repo.Update(q, written);
      assert done ==> HookPaid(old(repo.rows), repo.rows, p.id, intent, event);
      r := if done then Acknowledged else Retry;
    }
  }
}
