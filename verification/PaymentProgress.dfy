// What the interleaved payment calls come to when nobody interferes: each runs through to the
// result the service promises (internals/app/payment/service.go). The safety theorems say what no
// interleaving can break; these say that the calls do their work.
module PaymentProgress {
  import opened Payments
  import opened PaymentSafety
  import opened PaymentLinks
  import Tokens

  function After(s: Ledger, steps: seq<Step>): Ledger
    decreases |steps|
  {
    if steps == [] then s else After(Next(s, steps[0]), steps[1..])
  }

  ghost predicate Allowed(s: Ledger, steps: seq<Step>)
    decreases |steps|
  {
    steps == [] || (Enabled(s, steps[0]) && Allowed(Next(s, steps[0]), steps[1..]))
  }

  /** From s the steps are possible and lead to t. */
  ghost predicate Leads(s: Ledger, steps: seq<Step>, t: Ledger) {
    Allowed(s, steps) && After(s, steps) == t
  }

  lemma {:induction false} LeadsOn(s: Ledger, st: Step, steps: seq<Step>, t: Ledger)
    requires Enabled(s, st) && Leads(Next(s, st), steps, t)
    ensures Leads(s, [st] + steps, t)
  {
    assert ([st] + steps)[1..] == steps;
  }

  lemma {:induction false} LeadsNowhere(s: Ledger)
    ensures Leads(s, [], s)
  {
  }

  // --- Status -----------------------------------------------------------------------------------------

  lemma {:induction false} ListedPaid(s: Ledger, job: JobId, list: seq<Payment>)
    requires IsListing(s.rows, job, list)
    ensures HasPaidRow(s, job) <==> FirstPaid(list) < |list|
    ensures forall p :: p in list ==> p.id in s.rows && s.rows[p.id] == p && p.job == job
    ensures list == [] <==> forall id :: id in s.rows ==> s.rows[id].job != job
  {
    if HasPaidRow(s, job) {
      var id :| id in s.rows && s.rows[id].job == job && s.rows[id].status.Paid?;
      var k :| 0 <= k < |list| && list[k] == s.rows[id];
    }
    if FirstPaid(list) < |list| {
      var p := list[FirstPaid(list)];
      assert p.id in s.rows && s.rows[p.id] == p;
    }
    if list != [] {
      assert list[0].id in s.rows;
    }
  }

  /** The step at which Status reads the job's payments. */
  lemma {:induction false} StatusLists(s: Ledger, o: nat, job: JobId, a: AssetId, list: seq<Payment>, exp: int)
    requires o in s.calls && s.calls[o] == StatusList(job, a) && IsListing(s.rows, job, list)
    ensures Enabled(s, List(o, list, exp))
    ensures Next(s, List(o, list, exp)) ==
      if HasPaidRow(s, job) then End(Mint(s, a, exp), o)
      else if list != [] && list[0].status.Pending? && list[0].ref != "" then Goto(s, o, StatusRetrieve(a, list[0]))
      else End(s, o)
  {
    ListedPaid(s, job, list);
    hide FirstPaid;
  }

  /** Stripe was asked about the pending payment; no answer is a refusal. */
  ghost predicate Confirmed(s: Ledger, p: Payment, answered: bool) {
    answered && p.ref in s.intents && s.intents[p.ref].status.Succeeded? && PaysInFull(s.intents[p.ref], p)
  }

  lemma {:induction false} StatusAsks(s: Ledger, o: nat, a: AssetId, p: Payment, answered: bool, price: Price)
    requires o in s.calls && s.calls[o] == StatusRetrieve(a, p) && p.ref in s.intents
    ensures Enabled(s, Retrieve(o, answered, price))
    ensures Next(s, Retrieve(o, answered, price)) ==
      if Confirmed(s, p, answered) then Goto(s, o, StatusWrite(a, p.(status := Paid))) else End(s, o)
  {
    CoversIff(s.intents[p.ref], p);
    hide CoversPayment, PaysInFull;
  }

  lemma {:induction false} BeginEnds(s: Ledger, o: nat, call: Call)
    requires o !in s.calls
    ensures End(Goto(s, o, call), o) == s
  {
  }

  lemma {:induction false} MintAside(s: Ledger, o: nat, call: Call, a: AssetId, exp: int)
    requires o !in s.calls
    ensures End(Mint(Goto(s, o, call), a, exp), o) == Mint(s, a, exp)
  {
    assert s.calls[o := call] - {o} == s.calls;
  }

  lemma {:induction false} StatusWrites(s: Ledger, o: nat, a: AssetId, p: Payment, at: int, exp: int)
    requires o !in s.calls && p.id in s.rows
    ensures var mid, st := Goto(s, o, StatusWrite(a, p)), Write(o, at, exp, true);
      Enabled(mid, st) && Next(mid, st) == Mint(s.(rows := s.rows[p.id := p]), a, exp)
  {
    assert s.calls[o := StatusWrite(a, p)] - {o} == s.calls;
  }

  /** Status on a bought job signs a link and changes nothing else. */
  lemma {:induction false} BoughtIsUnlocked(s: Ledger, o: nat, job: JobId, a: AssetId, list: seq<Payment>, exp: int)
    requires o !in s.calls && CanBegin(s, StatusList(job, a)) && IsListing(s.rows, job, list) && HasPaidRow(s, job)
    ensures Leads(s, [Begin(o, StatusList(job, a)), List(o, list, exp)], Mint(s, a, exp))
  {
    hide IsListing, FirstPaid, AfterList;
    var s1 := Goto(s, o, StatusList(job, a));
    assert HasPaidRow(s1, job);
    StatusLists(s1, o, job, a, list, exp);
    MintAside(s, o, StatusList(job, a), a, exp);
    LeadsNowhere(Mint(s, a, exp));
    LeadsOn(s1, List(o, list, exp), [], Mint(s, a, exp));
    LeadsOn(s, Begin(o, StatusList(job, a)), [List(o, list, exp)], Mint(s, a, exp));
    assert [List(o, list, exp)] + [] == [List(o, list, exp)];
    assert [Begin(o, StatusList(job, a))] + [List(o, list, exp)] == [Begin(o, StatusList(job, a)), List(o, list, exp)];
  }

  function StatusSteps(o: nat, job: JobId, a: AssetId, list: seq<Payment>, exp: int, answered: bool,
      price: Price): seq<Step> {
    [Begin(o, StatusList(job, a)), List(o, list, exp), Retrieve(o, answered, price)]
  }

  lemma {:induction false} ThreeSteps(s: Ledger, a: Step, s1: Ledger, b: Step, s2: Ledger, c: Step, rest: seq<Step>,
      t: Ledger)
    requires Enabled(s, a) && Next(s, a) == s1 && Enabled(s1, b) && Next(s1, b) == s2 && Enabled(s2, c)
    requires Leads(Next(s2, c), rest, t)
    ensures Leads(s, [a, b, c] + rest, t)
  {
    hide Enabled, Next;
    LeadsOn(s2, c, rest, t);
    LeadsOn(s1, b, [c] + rest, t);
    LeadsOn(s, a, [b] + ([c] + rest), t);
    assert [a, b, c] + rest == [a] + ([b] + ([c] + rest));
  }

  /** Status on a job whose newest payment waits: once Stripe confirms that it was paid in full, the
      row becomes paid and a link is signed; otherwise nothing changes. */
  lemma {:induction false} PendingIsUnlockedIff(s: Ledger, o: nat, job: JobId, a: AssetId, list: seq<Payment>, exp: int,
                             answered: bool, price: Price, at: int)
    requires o !in s.calls && CanBegin(s, StatusList(job, a)) && IsListing(s.rows, job, list) && !HasPaidRow(s, job)
    requires list != [] && list[0].status.Pending? && list[0].ref != "" && list[0].ref in s.intents
    ensures var p, steps := list[0], StatusSteps(o, job, a, list, exp, answered, price);
      if Confirmed(s, p, answered) then
        Leads(s, steps + [Write(o, at, exp, true)],
              Mint(s.(rows := s.rows[p.id := p.(status := Paid)]), a, exp))
      else Leads(s, steps + [], s)
  {
    var p := list[0];
    ListedPaid(s, job, list);
    hide IsListing, FirstPaid, AfterList, Confirmed;
    var s1, s2 := Goto(s, o, StatusList(job, a)), Goto(s, o, StatusRetrieve(a, p));
    assert !HasPaidRow(s1, job);
    StatusLists(s1, o, job, a, list, exp);
    assert Next(s1, List(o, list, exp)) == s2;
    StatusAsks(s2, o, a, p, answered, price);
    assert Confirmed(s2, p, answered) == Confirmed(s, p, answered) by { SameConfirmed(s, s2, p, answered); }
    if Confirmed(s, p, answered) {
      var q := p.(status := Paid);
      var s3, t := Goto(s, o, StatusWrite(a, q)), Mint(s.(rows := s.rows[p.id := q]), a, exp);
      assert Next(s2, Retrieve(o, answered, price)) == s3;
      StatusWrites(s, o, a, q, at, exp);
      LeadsNowhere(t);
      LeadsOn(s3, Write(o, at, exp, true), [], t);
      assert [Write(o, at, exp, true)] + [] == [Write(o, at, exp, true)];
      ThreeSteps(s, Begin(o, StatusList(job, a)), s1, List(o, list, exp), s2, Retrieve(o, answered, price),
                 [Write(o, at, exp, true)], t);
    } else {
      BeginEnds(s, o, StatusRetrieve(a, p));
      LeadsNowhere(s);
      ThreeSteps(s, Begin(o, StatusList(job, a)), s1, List(o, list, exp), s2, Retrieve(o, answered, price), [], s);
    }
  }

  lemma {:induction false} SameConfirmed(s: Ledger, t: Ledger, p: Payment, answered: bool)
    requires t.intents == s.intents
    ensures Confirmed(t, p, answered) == Confirmed(s, p, answered)
  {
  }

  // --- Webhook -----------------------------------------------------------------------------------------

  lemma {:induction false} HookFinds(s: Ledger, o: nat, i: IntentId, event: Intent, id: PayId)
    requires o in s.calls && s.calls[o] == HookFind(i, event) && id in s.rows && s.rows[id].ref == i
    ensures Enabled(s, FindByRef(o, id))
    ensures Next(s, FindByRef(o, id)) ==
      if !s.rows[id].status.Paid? && PaysInFull(event, s.rows[id]) then
        Goto(s, o, HookWrite(s.rows[id].(status := Paid)))
      else End(s, o)
  {
    CoversIff(event, s.rows[id]);
    hide PaysInFull, CoversPayment;
  }

  lemma {:induction false} HookWrites(s: Ledger, o: nat, p: Payment, at: int, exp: int)
    requires o !in s.calls && p.id in s.rows
    ensures var mid, st := Goto(s, o, HookWrite(p)), Write(o, at, exp, true);
      Enabled(mid, st) && Next(mid, st) == s.(rows := s.rows[p.id := p])
  {
    assert s.calls[o := HookWrite(p)] - {o} == s.calls;
  }

  /** An event that pays an unpaid row of its ref in full makes that row paid; any other is dropped. */
  lemma {:induction false} EventPaysIff(s: Ledger, o: nat, i: IntentId, id: PayId, at: int, exp: int)
    requires o !in s.calls && i in s.intents && s.intents[i].status.Succeeded?
    requires id in s.rows && s.rows[id].ref == i && s.rows[id].id == id
    ensures var begin, find, write := Begin(o, HookFind(i, s.intents[i])), FindByRef(o, id), Write(o, at, exp, true);
      if !s.rows[id].status.Paid? && PaysInFull(s.intents[i], s.rows[id]) then
        Leads(s, [begin, find, write], s.(rows := s.rows[id := s.rows[id].(status := Paid)]))
      else Leads(s, [begin, find], s)
  {
    var event, p := s.intents[i], s.rows[id];
    hide PaysInFull, CoversPayment, AfterFind, AfterWrite;
    var begin, find, write := Begin(o, HookFind(i, event)), FindByRef(o, id), Write(o, at, exp, true);
    var s1 := Goto(s, o, HookFind(i, event));
    assert Enabled(s, begin) && Next(s, begin) == s1;
    HookFinds(s1, o, i, event, id);
    if !p.status.Paid? && PaysInFull(event, p) {
      var t := s.(rows := s.rows[id := p.(status := Paid)]);
      HookWrites(s, o, p.(status := Paid), at, exp);
      LeadsNowhere(t);
      hide Next, Enabled;
      ThreeSteps(s, begin, s1, find, Goto(s, o, HookWrite(p.(status := Paid))), write, [], t);
      assert [begin, find, write] + [] == [begin, find, write];
    } else {
      BeginEnds(s, o, HookFind(i, event));
      LeadsNowhere(s);
      hide Next, Enabled;
      LeadsOn(s1, find, [], s);
      LeadsOn(s, begin, [find], s);
      assert [find] + [] == [find] && [begin] + [find] == [begin, find];
    }
  }

  // --- CreateIntent --------------------------------------------------------------------------------------

  /** The step at which CreateIntent reads the job's payments: a bought job refuses, a newest payment
      that waits for its intent is looked up, and anything else gets a new row. */
  lemma {:induction false} CheckoutLists(s: Ledger, o: nat, job: JobId, list: seq<Payment>, exp: int)
    requires o in s.calls && s.calls[o] == CreateList(job) && IsListing(s.rows, job, list)
    ensures Enabled(s, List(o, list, exp))
    ensures Next(s, List(o, list, exp)) ==
      if HasPaidRow(s, job) then End(s, o)
      else if list != [] && list[0].status.Pending? && list[0].ref != "" then Goto(s, o, CreateRetrieve(job, list[0]))
      else Goto(s, o, CreateRow(job))
  {
    ListedPaid(s, job, list);
    hide FirstPaid;
  }

  /** The open intent of the newest payment is handed back and nothing changes; one that is not open
      for today's price gives way to a new row. */
  lemma {:induction false} ReuseIff(s: Ledger, o: nat, job: JobId, p: Payment, answered: bool, price: Price)
    requires o !in s.calls && p.ref in s.intents
    ensures var s1, it := Goto(s, o, CreateRetrieve(job, p)), s.intents[p.ref];
      && Enabled(s1, Retrieve(o, answered, price))
      && Next(s1, Retrieve(o, answered, price)) ==
         if answered && it.status in {RequiresPaymentMethod, RequiresConfirmation, RequiresAction}
            && it.secret != "" && it.amount == price.cents && it.currency == price.currency then s
         else Goto(s, o, CreateRow(job))
  {
    BeginEnds(s, o, CreateRetrieve(job, p));
  }

  lemma {:induction false} RowInserted(s: Ledger, o: nat, job: JobId, q: Payment, price: Price)
    requires o !in s.calls && job in s.jobs && q.id !in s.used
    requires q == Payment(q.id, job, "", Pending, price.cents, price.currency, q.createdAt)
    ensures var mid, st := Goto(s, o, CreateRow(job)), InsertRow(o, q.id, q.createdAt, true, price);
      && Enabled(mid, st)
      && Next(mid, st) == Goto(s.(rows := s.rows[q.id := q], used := s.used + {q.id}), o, CreateStripe(q))
  {
    assert s.calls[o := CreateRow(job)][o := CreateStripe(q)] == s.calls[o := CreateStripe(q)];
  }

  lemma {:induction false} IntentMade(s: Ledger, o: nat, q: Payment, i: IntentId, secret: string,
      status: IntentStatus, price: Price)
    requires o !in s.calls && i !in s.intents && i != "" && !status.Succeeded?
    ensures var mid, st := Goto(s, o, CreateStripe(q)), NewIntent(o, i, secret, status, true, price);
      var it := Intent(status, price.cents, 0, price.currency, secret);
      Enabled(mid, st) && Next(mid, st) == Goto(s.(intents := s.intents[i := it]), o, CreateWrite(q.(ref := i)))
  {
    assert s.calls[o := CreateStripe(q)][o := CreateWrite(q.(ref := i))] == s.calls[o := CreateWrite(q.(ref := i))];
  }

  lemma {:induction false} RefKept(s: Ledger, o: nat, q: Payment, written: int, exp: int)
    requires o !in s.calls && q.id in s.rows
    ensures var mid, st := Goto(s, o, CreateWrite(q)), Write(o, written, exp, true);
      Enabled(mid, st) && Next(mid, st) == s.(rows := s.rows[q.id := q.(createdAt := written)])
  {
    assert s.calls[o := CreateWrite(q)] - {o} == s.calls;
  }

  /** What a checkout adds: one pending row at the price, and its intent for the same price. */
  lemma {:induction false} CheckoutAdds(s: Ledger, o: nat, job: JobId, id: PayId, at: int, i: IntentId, secret: string,
                     status: IntentStatus, written: int, exp: int, price: Price)
    requires o !in s.calls && job in s.jobs && id !in s.used && i !in s.intents && i != "" && !status.Succeeded?
    ensures var p := Payment(id, job, i, Pending, price.cents, price.currency, written);
      var it := Intent(status, price.cents, 0, price.currency, secret);
      Leads(Goto(s, o, CreateRow(job)),
            [InsertRow(o, id, at, true, price), NewIntent(o, i, secret, status, true, price),
                Write(o, written, exp, true)],
            s.(rows := s.rows[id := p], used := s.used + {id}, intents := s.intents[i := it]))
  {
    hide Next, Enabled;
    var q := Payment(id, job, "", Pending, price.cents, price.currency, at);
    var it := Intent(status, price.cents, 0, price.currency, secret);
    var rowed := s.(rows := s.rows[id := q], used := s.used + {id});
    var paid := rowed.(intents := s.intents[i := it]);
    var a, b, c := InsertRow(o, id, at, true, price), NewIntent(o, i, secret, status, true, price),
        Write(o, written, exp, true);
    RowInserted(s, o, job, q, price);
    IntentMade(rowed, o, q, i, secret, status, price);
    RefKept(paid, o, q.(ref := i), written, exp);
    var p := q.(ref := i, createdAt := written);
    assert s.rows[id := q][id := p] == s.rows[id := p];
    var t := paid.(rows := s.rows[id := p]);
    LeadsNowhere(t);
    ThreeSteps(Goto(s, o, CreateRow(job)), a, Goto(rowed, o, CreateStripe(q)), b,
               Goto(paid, o, CreateWrite(q.(ref := i))), c, [], t);
    assert [a, b, c] + [] == [a, b, c];
  }
}
