// "An original link is signed only for a payment recorded as paid" (the comments of
// internals/app/share/handler.go and internals/app/payment/service.go): the exact condition under
// which a run of the payment calls keeps it.
module PaymentLinks {
  import opened Payments
  import opened PaymentSafety
  import opened PaymentRuns
  import Base64Url
  import Basics
  import Share
  import Tokens

  predicate HasPaidRow(s: Ledger, job: JobId) {
    exists id :: id in s.rows && s.rows[id].job == job && s.rows[id].status.Paid?
  }

  /** Every original link ever signed for a job that still exists has a payment of that job
      recorded as paid. */
  ghost predicate LinksHavePaidRow(s: Ledger) {
    forall c :: c in s.claims && c.purpose == Original() ==>
      c.subject in s.owner && (s.owner[c.subject] in s.jobs ==> HasPaidRow(s, s.owner[c.subject]))
  }

  /** Status is about to sign although its write fails, for a job with no other paid row. */
  predicate SignsUnpaid(s: Ledger, st: Step) {
    && st.Write? && !st.ok && st.o in s.calls && s.calls[st.o].StatusWrite?
    && s.calls[st.o].p.job in s.jobs && !HasPaidRow(s, s.calls[st.o].p.job)
  }

  /** A paid row is there and paid after any step, or its job is gone. */
  lemma PaidRowStays(s: Ledger, st: Step, id: PayId)
    requires Inv(s) && Enabled(s, st) && id in s.rows && s.rows[id].status.Paid?
    ensures var t := Next(s, st); s.rows[id].job in t.jobs ==> HasPaidRow(t, s.rows[id].job)
  {
    var t := Next(s, st);
    if s.rows[id].job in t.jobs {
      RowStays(s, st, id);
      PaidStaysPut(s, st, id);
      hide Next;
      assert t.rows[id].job == s.rows[id].job;
    }
  }

  lemma RowStays(s: Ledger, st: Step, id: PayId)
    requires Enabled(s, st) && id in s.rows && s.rows[id].job in Next(s, st).jobs
    ensures id in Next(s, st).rows
  {
    hide AfterList, AfterRetrieve, AfterFind, AfterWrite;
    if st.Write? {
      WriteAddsNoRow(s, st);
    } else if !TouchesRows(st) {
      OtherStepsLeaveRows(s, st);
    }
  }

  /** Existing jobs keep their originals, and only AddJob brings a job, which has none before. */
  lemma JobsKeepTheirAssets(s: Ledger, st: Step, a: AssetId)
    requires Enabled(s, st) && a in s.owner
    ensures var t := Next(s, st);
      a in t.owner && t.owner[a] == s.owner[a] && (s.owner[a] in t.jobs ==> s.owner[a] in s.jobs)
  {
    hide AfterList, AfterRetrieve, AfterFind, AfterWrite;
    assert s.owner[a] in s.owner.Values;
    match st
    case List(o, list, exp) => ListMovesCall(s, o, s.calls[o], list, exp);
    case Retrieve(o, ok, price) => RetrieveMovesCall(price, s, o, s.calls[o], ok);
    case FindByRef(o, id) => FindMovesCall(s, o, s.calls[o], id);
    case Write(o, at, exp, ok) => WriteSigns(s, o, s.calls[o], at, exp, ok);
    case _ =>
  }

  // What a step of a call does to the jobs and to the signed links.

  lemma ListMovesCall(s: Ledger, o: nat, call: Call, list: seq<Payment>, exp: int)
    ensures var t := AfterList(s, o, call, list, exp);
      && t.owner == s.owner && t.jobs == s.jobs
      && forall c :: c in t.claims && c !in s.claims ==>
           call.StatusList? && FirstPaid(list) < |list| && c.subject == call.original
  {
    hide FirstPaid;
    var t := AfterList(s, o, call, list, exp);
    if call.StatusList? && FirstPaid(list) < |list| {
      assert t == End(Mint(s, call.original, exp), o);
    } else {
      assert t.claims == s.claims;
    }
  }

  lemma RetrieveMovesCall(price: Price, s: Ledger, o: nat, call: Call, ok: bool)
    ensures var t := AfterRetrieve(price, s, o, call, ok);
      t.owner == s.owner && t.jobs == s.jobs && t.claims == s.claims
  {
    hide Reusable, CoversPayment;
  }

  lemma FindMovesCall(s: Ledger, o: nat, call: Call, id: PayId)
    ensures var t := AfterFind(s, o, call, id); t.owner == s.owner && t.jobs == s.jobs && t.claims == s.claims
  {
    hide CoversPayment;
  }

  lemma WriteSigns(s: Ledger, o: nat, call: Call, at: int, exp: int, ok: bool)
    ensures var t := AfterWrite(s, o, call, at, exp, ok);
      && t.owner == s.owner && t.jobs == s.jobs
      && forall c :: c in t.claims && c !in s.claims ==> call.StatusWrite? && c.subject == call.original
  {
  }

  /** An original link is signed by Status only: over a row listed as paid, or at its write. */
  lemma OnlyStatusSigns(s: Ledger, st: Step, c: Tokens.Claim)
    requires Enabled(s, st) && c in Next(s, st).claims && c !in s.claims && c.purpose == Original()
    ensures (st.List? || st.Write?) && st.o in s.calls && c.subject == s.calls[st.o].original
    ensures st.List? ==> s.calls[st.o].StatusList? && FirstPaid(st.list) < |st.list|
    ensures st.Write? ==> s.calls[st.o].StatusWrite?
  {
    hide AfterList, AfterRetrieve, AfterFind, AfterWrite, FirstPaid;
    match st
    case List(o, list, exp) => ListMovesCall(s, o, s.calls[o], list, exp);
    case Retrieve(o, ok, price) => RetrieveMovesCall(price, s, o, s.calls[o], ok);
    case FindByRef(o, id) => FindMovesCall(s, o, s.calls[o], id);
    case Write(o, at, exp, ok) => WriteSigns(s, o, s.calls[o], at, exp, ok);
    case _ =>
  }

  lemma ListedPaidRow(s: Ledger, st: Step)
    requires Enabled(s, st) && st.List? && FirstPaid(st.list) < |st.list|
    ensures Next(s, st).rows == s.rows && HasPaidRow(s, s.calls[st.o].job)
  {
    OtherStepsLeaveRows(s, st);
    var p := st.list[FirstPaid(st.list)];
    assert p.id in s.rows && s.rows[p.id] == p && p.job == s.calls[st.o].job;
  }

  /** After reconcile decided "paid", the row says so iff the write went through or another call
      had already written it. The link is signed in both cases. */
  lemma ReconciledRowIsPaidIff(s: Ledger, o: nat, at: int, exp: int, ok: bool)
    requires Inv(s) && Enabled(s, Write(o, at, exp, ok)) && s.calls[o].StatusWrite?
    ensures var t, p := Next(s, Write(o, at, exp, ok)), s.calls[o].p;
      && t.owner == s.owner && t.jobs == s.jobs && t.rows.Keys == s.rows.Keys
      && s.calls[o].original in s.owner && s.owner[s.calls[o].original] == p.job
      && (p.id in s.rows ==> s.rows[p.id].job == p.job)
      && (p.id in s.rows ==> (t.rows[p.id].status.Paid? <==> ok || s.rows[p.id].status.Paid?))
      && (forall id :: id in s.rows && id != p.id ==> t.rows[id] == s.rows[id])
      && (ok ==> p.id in s.rows && t.rows[p.id] == p) && (!ok ==> t.rows == s.rows)
      && Tokens.Claim(Original(), s.calls[o].original, exp) in t.claims
  {
    hide CoversPayment, CreatorsApart, Rows, RefsUnique, Claims;
    assert CallOk(s, s.calls[o]);
  }

  /** Status's write leaves its job with a paid row iff it went through or there was one. */
  lemma PaidRowAfterWriteIff(s: Ledger, st: Step)
    requires Inv(s) && Enabled(s, st) && st.Write? && s.calls[st.o].StatusWrite?
    ensures var t, job := Next(s, st), s.calls[st.o].p.job;
      HasPaidRow(t, job) <==> st.ok || HasPaidRow(s, job)
  {
    ReconciledRowIsPaidIff(s, st.o, st.at, st.exp, st.ok);
    hide Next, Enabled, Inv;
    var t, p := Next(s, st), s.calls[st.o].p;
    if st.ok {
      assert t.rows[p.id].status.Paid?;
    }
  }

  lemma LinksStep(s: Ledger, st: Step)
    requires Inv(s) && Enabled(s, st) && LinksHavePaidRow(s) && !SignsUnpaid(s, st)
    ensures LinksHavePaidRow(Next(s, st))
  {
    var t := Next(s, st);
    hide Next, Enabled, Inv;
    forall c | c in t.claims && c.purpose == Original()
      ensures c.subject in t.owner && (t.owner[c.subject] in t.jobs ==> HasPaidRow(t, t.owner[c.subject]))
    {
      if c in s.claims {
        OldLinkKeepsRow(s, st, c.subject);
      } else {
        NewLinkHasRow(s, st, c);
      }
    }
  }

  lemma OldLinkKeepsRow(s: Ledger, st: Step, a: AssetId)
    requires Inv(s) && Enabled(s, st)
    requires a in s.owner && (s.owner[a] in s.jobs ==> HasPaidRow(s, s.owner[a]))
    ensures var t := Next(s, st); a in t.owner && (t.owner[a] in t.jobs ==> HasPaidRow(t, t.owner[a]))
  {
    hide Next, Enabled, Inv;
    JobsKeepTheirAssets(s, st, a);
    if s.owner[a] in Next(s, st).jobs {
      var id :| id in s.rows && s.rows[id].job == s.owner[a] && s.rows[id].status.Paid?;
      PaidRowStays(s, st, id);
    }
  }

  lemma NewLinkHasRow(s: Ledger, st: Step, c: Tokens.Claim)
    requires Inv(s) && Enabled(s, st) && !SignsUnpaid(s, st)
    requires c in Next(s, st).claims && c !in s.claims && c.purpose == Original()
    ensures var t := Next(s, st);
      c.subject in t.owner && (t.owner[c.subject] in t.jobs ==> HasPaidRow(t, t.owner[c.subject]))
  {
    OnlyStatusSigns(s, st, c);
    assert CallOk(s, s.calls[st.o]);
    hide Next, Inv, CoversPayment, Rows, CallOk;
    JobsKeepTheirAssets(s, st, c.subject);
    if st.List? {
      ListedPaidRow(s, st);
    } else {
      PaidRowAfterWriteIff(s, st);
    }
  }

  /** In every run, while no paying write of Status has failed, every original link signed
      for a job that still exists has a payment recorded as paid. */
  lemma LinksHavePaidRows(ss: seq<Ledger>, steps: seq<Step>, i: nat)
    requires IsRun(ss, steps) && i < |ss| && ss[i].failedWrites == {}
    ensures LinksHavePaidRow(ss[i])
  {
    RunInv(ss, steps, i);
    forall c | c in ss[i].claims && c.purpose == Original() && ss[i].owner[c.subject] in ss[i].jobs
      ensures HasPaidRow(ss[i], ss[i].owner[c.subject])
    {
      assert PaidFor(ss[i], c.subject);
      var id :| Behind(ss[i], id, ss[i].owner[c.subject]);
      assert ss[i].rows[id].status.Paid?;
    }
  }

  lemma {:induction false} LinksPaidUpTo(ss: seq<Ledger>, steps: seq<Step>, i: nat)
    requires IsRun(ss, steps) && i < |ss|
    requires forall k :: 0 <= k < i ==> !SignsUnpaid(ss[k], steps[k])
    ensures LinksHavePaidRow(ss[i])
  {
    hide Next, Enabled, SignsUnpaid, Inv;
    if i > 0 {
      LinksPaidUpTo(ss, steps, i - 1);
      RunInv(ss, steps, i - 1);
      LinksStep(ss[i - 1], steps[i - 1]);
    }
  }

  lemma UnpaidSigned(s: Ledger, st: Step)
    requires Inv(s) && Enabled(s, st) && SignsUnpaid(s, st)
    ensures !LinksHavePaidRow(Next(s, st))
  {
    ReconciledRowIsPaidIff(s, st.o, st.at, st.exp, st.ok);
    PaidRowAfterWriteIff(s, st);
    hide Next, Enabled, Inv;
    var c := Tokens.Claim(Original(), s.calls[st.o].original, st.exp);
    assert c in Next(s, st).claims;
  }

  /** The promise is kept throughout a run - in each of its states every original link signed
      for a job that still exists has a payment recorded as paid - iff each write of Status that
      failed found its job deleted or paid for by another row. */
  lemma LinksStayPaidForIff(ss: seq<Ledger>, steps: seq<Step>)
    requires IsRun(ss, steps)
    ensures (forall i :: 0 <= i < |ss| ==> LinksHavePaidRow(ss[i]))
            <==> (forall k :: 0 <= k < |steps| ==> !SignsUnpaid(ss[k], steps[k]))
  {
    hide Next, Enabled, SignsUnpaid, LinksHavePaidRow, Inv;
    if forall k :: 0 <= k < |steps| ==> !SignsUnpaid(ss[k], steps[k]) {
      forall i | 0 <= i < |ss| ensures LinksHavePaidRow(ss[i]) {
        LinksPaidUpTo(ss, steps, i);
      }
    } else {
      var k :| 0 <= k < |steps| && SignsUnpaid(ss[k], steps[k]);
      RunInv(ss, steps, k);
      UnpaidSigned(ss[k], steps[k]);
      assert !LinksHavePaidRow(ss[k + 1]);
    }
  }

  /** The same of one write: in a run that ends in Status's write, with the promise kept before it,
      it is kept afterwards iff the write went through, or the job is gone, or the job had a row
      recorded as paid already. */
  lemma LastWriteKeepsPromiseIff(ss: seq<Ledger>, steps: seq<Step>)
    requires IsRun(ss, steps) && |steps| > 0
    requires var s, st := ss[|steps| - 1], steps[|steps| - 1];
      LinksHavePaidRow(s) && st.Write? && s.calls[st.o].StatusWrite?
    ensures var s, st := ss[|steps| - 1], steps[|steps| - 1];
      var job := s.calls[st.o].p.job;
      LinksHavePaidRow(ss[|steps|]) <==> st.ok || job !in s.jobs || HasPaidRow(s, job)
  {
    var s, st := ss[|steps| - 1], steps[|steps| - 1];
    RunInv(ss, steps, |steps| - 1);
    hide Next, LinksHavePaidRow, Inv, HasPaidRow;
    if SignsUnpaid(s, st) {
      UnpaidSigned(s, st);
    } else {
      LinksStep(s, st);
    }
  }

  /** What a visitor sees: whatever opens as an original belongs to a job with a payment recorded
      as paid, as long as no failed write of Status signed for an unpaid job. */
  lemma OpenedOriginalHasPaidRow(ss: seq<Ledger>, steps: seq<Step>, i: nat, mac: Tokens.Mac,
                                 macked: set<Base64Url.Bytes>, assets: map<Share.AssetId, Share.Asset>,
                                 links: map<Share.JobId, bool>, tok: Base64Url.Bytes, now: int)
    requires IsRun(ss, steps) && i < |ss|
    requires forall k :: 0 <= k < i ==> !SignsUnpaid(ss[k], steps[k])
    requires HoldsOriginals(ss[i], assets)
    requires Tokens.OnlyMacked(macked, ss[i].claims) && Tokens.Unguessed(mac, macked, tok)
    ensures var r := Share.Resolve(mac, assets, links, tok, Original(), Basics.Kind.Original, now);
      r.Served? ==> HasPaidRow(ss[i], r.asset.job)
  {
    hide Next, Enabled, SignsUnpaid;
    if Share.Resolve(mac, assets, links, tok, Original(), Basics.Kind.Original, now).Served? {
      var c := Tokens.VerifiedWasSigned(mac, macked, ss[i].claims, Original(), tok, now);
      LinksPaidUpTo(ss, steps, i);
    }
  }
}
