// "An original link exists only for a job with a paid payment row" fails in one place: reconcile
// sets Status to paid in memory before the Update, and Status signs the link even when that
// Update fails (internals/app/payment/service.go:339-343, 254-261). A concrete run.
module PaymentCounterexample {
  import opened Payments
  import Tokens

  const PRICE := Price(500, "eur")
  const A: AssetId := [97]
  const JOB: JobId := "j"

  function Bill(ref: IntentId, status: PayStatus): Payment {
    Payment("p", JOB, ref, status, 500, "eur", 0)
  }
  function Deal(status: IntentStatus): Intent {
    Intent(status, 500, 0, "eur", "s")
  }

  function World(rows: map<PayId, Payment>, intents: map<IntentId, Intent>, used: set<PayId>,
                 calls: map<nat, Call>): Ledger {
    Ledger(rows, intents, {JOB}, map[A := JOB], used, calls, {}, {})
  }

  const S1 := World(map[], map[], {}, map[])
  const S2 := World(map[], map[], {}, map[0 := CreateList(JOB)])
  const S3 := World(map[], map[], {}, map[0 := CreateRow(JOB)])
  const S4 := World(map["p" := Bill("", Pending)], map[], {"p"}, map[0 := CreateStripe(Bill("", Pending))])
  const S5 := World(map["p" := Bill("", Pending)], map["i" := Deal(OtherStatus)], {"p"},
      map[0 := CreateWrite(Bill("i", Pending))])
  const S6 := World(map["p" := Bill("i", Pending)], map["i" := Deal(OtherStatus)], {"p"}, map[])
  const S7 := World(map["p" := Bill("i", Pending)], map["i" := Deal(Succeeded)], {"p"}, map[])
  const S8 := World(map["p" := Bill("i", Pending)], map["i" := Deal(Succeeded)], {"p"}, map[0 := StatusList(JOB, A)])
  const S9 := World(map["p" := Bill("i", Pending)], map["i" := Deal(Succeeded)], {"p"},
      map[0 := StatusRetrieve(A, Bill("i", Pending))])
  const S10 := World(map["p" := Bill("i", Pending)], map["i" := Deal(Succeeded)], {"p"},
      map[0 := StatusWrite(A, Bill("i", Paid))])
  const S11 := Ledger(map["p" := Bill("i", Pending)], map["i" := Deal(Succeeded)], {JOB}, map[A := JOB], {"p"}, map[],
                      {Tokens.Claim(Original(), A, 9)}, {"p"})

  const STATES: seq<Ledger> := [EMPTY, S1, S2, S3, S4, S5, S6, S7, S8, S9, S10, S11]
  const STEPS: seq<Step> := [
    AddJob(JOB, A), Begin(0, CreateList(JOB)), List(0, [], 0), InsertRow(0, "p", 0, true, PRICE),
    NewIntent(0, "i", "s", OtherStatus, true, PRICE), Write(0, 0, 0, true), IntentMoves("i", Deal(Succeeded)),
    Begin(0, StatusList(JOB, A)), List(0, [Bill("i", Pending)], 0), Retrieve(0, true, PRICE), Write(0, 0, 9, false)]

  ghost predicate Leads(s: Ledger, st: Step, t: Ledger) {
    Enabled(s, st) && t == Next(s, st)
  }

  lemma JobIsAdded()
    ensures Leads(EMPTY, STEPS[0], S1)
  {
    assert EMPTY.owner.Values == {};
  }

  lemma CheckoutBegins()
    ensures Leads(S1, STEPS[1], S2)
  {
  }

  lemma NothingListed()
    ensures Leads(S2, STEPS[2], S3)
  {
  }

  lemma RowIsInserted()
    ensures Leads(S3, STEPS[3], S4)
  {
  }

  lemma IntentIsMade()
    ensures Leads(S4, STEPS[4], S5)
  {
  }

  lemma RefIsWritten()
    ensures Leads(S5, STEPS[5], S6)
  {
  }

  lemma CardIsCharged()
    ensures Leads(S6, STEPS[6], S7)
  {
  }

  lemma StatusBegins()
    ensures Leads(S7, STEPS[7], S8)
  {
  }

  lemma PendingIsListed()
    ensures Leads(S8, STEPS[8], S9)
  {
  }

  lemma StripeConfirms()
    ensures Leads(S9, STEPS[9], S10)
  {
  }

  lemma WriteFails()
    ensures Leads(S10, STEPS[10], S11)
  {
  }

  lemma EveryStep(i: nat)
    requires i < |STEPS|
    ensures Leads(STATES[i], STEPS[i], STATES[i + 1])
  {
    hide Leads;
    if i == 0 {
      JobIsAdded();
    } else if i == 1 {
      CheckoutBegins();
    } else if i == 2 {
      NothingListed();
    } else if i == 3 {
      RowIsInserted();
    } else if i == 4 {
      IntentIsMade();
    } else if i == 5 {
      RefIsWritten();
    } else if i == 6 {
      CardIsCharged();
    } else if i == 7 {
      StatusBegins();
    } else if i == 8 {
      PendingIsListed();
    } else if i == 9 {
      StripeConfirms();
    } else {
      WriteFails();
    }
  }

  lemma LinkMintedWithoutPaidRow()
    ensures IsRun(STATES, STEPS)
    ensures exists c :: c in STATES[11].claims && c.purpose == Original() && STATES[11].owner[c.subject] == JOB
    ensures JOB in STATES[11].jobs
    ensures forall id :: id in STATES[11].rows && STATES[11].rows[id].job == JOB ==> !STATES[11].rows[id].status.Paid?
  {
    forall i | 0 <= i < |STEPS| ensures Enabled(STATES[i], STEPS[i]) && STATES[i + 1] == Next(STATES[i], STEPS[i]) {
      EveryStep(i);
    }
    assert Tokens.Claim(Original(), A, 9) in S11.claims;
  }
}
