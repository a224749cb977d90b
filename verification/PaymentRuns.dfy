// Every step keeps the payment invariants, and the theorems about whole runs.
module PaymentRuns {
  import opened Payments
  import opened PaymentSafety
  import Base64Url
  import Basics
  import Tokens
  import Share

  // --- step by step -------------------------------------------------------------------------

  lemma NewJobEvolves(s: Ledger, st: Step)
    requires Rows(s) && RefsUnique(s) && Enabled(s, st) && st.AddJob?
    ensures var t := Next(s, st); Evolves(s, t, {}) && Rows(t) && RefsUnique(t)
  {
    hide CoversPayment;
    var t := Next(s, st);
    forall j | j in s.owner.Values ensures j in t.owner.Values {
      var a :| a in s.owner && s.owner[a] == j;
      assert t.owner[a] == j;
    }
    assert t.owner[st.original] == st.job;
  }

  lemma JobAppears(s: Ledger, st: Step)
    requires Inv(s) && Enabled(s, st) && st.AddJob?
    ensures Inv(Next(s, st))
  {
    var t := Next(s, st);
    NewJobEvolves(s, st);
    RefsStillFree(s, t);
    hide CreatorsApart, Rows, RefsUnique, CallOk, Evolves, PaidFor;
    Survive(s, t, {});
    SameApart(s, t);
  }

  lemma JobGoesEvolves(s: Ledger, t: Ledger, job: JobId)
    requires Rows(s) && RefsUnique(s)
    requires t == s.(jobs := s.jobs - {job}, rows := map id | id in s.rows && s.rows[id].job != job :: s.rows[id])
    ensures Evolves(s, t, {}) && Rows(t) && RefsUnique(t)
  {
    hide CoversPayment;
    forall id | id in t.rows && t.rows[id].status.Paid? ensures Collected(t, t.rows[id]) {
      assert Collected(s, s.rows[id]);
    }
  }

  lemma JobGoes(s: Ledger, st: Step)
    requires Inv(s) && Enabled(s, st) && st.DropJob?
    ensures Inv(Next(s, st))
  {
    var t := Next(s, st);
    JobGoesEvolves(s, t, st.job);
    RefsStillFree(s, t);
    hide CreatorsApart, Rows, RefsUnique, CallOk, Evolves, PaidFor;
    Survive(s, t, {});
    SameApart(s, t);
  }

  lemma IntentsEvolve(s: Ledger, st: Step)
    requires Rows(s) && RefsUnique(s) && Enabled(s, st) && (st.IntentMoves? || st.IntentAppears?)
    ensures var t := Next(s, st); Evolves(s, t, {}) && Rows(t) && RefsUnique(t)
  {
    hide CoversPayment;
    var t := Next(s, st);
    forall id | id in t.rows && t.rows[id].status.Paid? ensures Collected(t, t.rows[id]) {
      assert Collected(s, s.rows[id]);
    }
  }

  lemma StripeMoves(s: Ledger, st: Step)
    requires Inv(s) && Enabled(s, st) && (st.IntentMoves? || st.IntentAppears?)
    ensures Inv(Next(s, st))
  {
    var t := Next(s, st);
    IntentsEvolve(s, st);
    RefsStillFree(s, t);
    hide CreatorsApart, Rows, RefsUnique, CallOk, Evolves, PaidFor;
    Survive(s, t, {});
    SameApart(s, t);
  }

  // While only the calls in flight change.

  lemma SameCallOk(s: Ledger, t: Ledger, call: Call)
    requires t == s.(calls := t.calls) && CallOk(s, call)
    ensures CallOk(t, call)
  {
  }

  lemma SameTables(s: Ledger, t: Ledger)
    requires t == s.(calls := t.calls) && Rows(s) && RefsUnique(s) && Claims(s)
    ensures Rows(t) && RefsUnique(t) && Claims(t)
  {
    forall c | c in t.claims && c.purpose == Original() ensures PaidFor(t, c.subject) {
      SamePaidFor(s, t, c.subject);
    }
  }

  lemma SamePaidFor(s: Ledger, t: Ledger, a: AssetId)
    requires t == s.(calls := t.calls) && PaidFor(s, a)
    ensures PaidFor(t, a)
  {
    if s.owner[a] in s.jobs {
      var id :| Behind(s, id, s.owner[a]);
      assert Behind(t, id, s.owner[a]);
    }
  }

  lemma SameOthers(s: Ledger, t: Ledger, o: nat)
    requires t == s.(calls := t.calls) && Calls(s)
    requires forall u :: u in t.calls && u != o ==> u in s.calls && t.calls[u] == s.calls[u]
    requires o in t.calls ==> CallOk(t, t.calls[o])
    ensures forall u :: u in t.calls ==> CallOk(t, t.calls[u])
  {
    hide CreatorsApart;
    forall u | u in t.calls ensures CallOk(t, t.calls[u]) {
      if u != o {
        SameCallOk(s, t, s.calls[u]);
      }
    }
  }

  lemma ApartStill(s: Ledger, t: Ledger, o: nat)
    requires CreatorsApart(s)
    requires forall u :: u in t.calls && u != o ==> u in s.calls && t.calls[u] == s.calls[u]
    requires o in t.calls && Creating(t.calls[o]) ==> forall u :: u in s.calls && u != o && Creating(s.calls[u]) ==>
      s.calls[u].p.id != t.calls[o].p.id && (t.calls[o].p.ref != "" ==> s.calls[u].p.ref != t.calls[o].p.ref)
    ensures CreatorsApart(t)
  {
  }

  /** A call ends: nothing else changes. */
  lemma EndKeeps(s: Ledger, o: nat)
    requires Inv(s)
    ensures Inv(End(s, o))
  {
    hide CallOk, CreatorsApart, Rows, RefsUnique, Claims;
    SameTables(s, End(s, o));
    SameOthers(s, End(s, o), o);
    ApartStill(s, End(s, o), o);
  }

  /** A call moves on; if it is creating a row, no other call is creating that one. */
  lemma GotoKeeps(s: Ledger, o: nat, call: Call)
    requires Inv(s) && CallOk(s, call)
    requires Creating(call) ==> forall u :: u in s.calls && u != o && Creating(s.calls[u]) ==>
               s.calls[u].p.id != call.p.id && (call.p.ref != "" ==> s.calls[u].p.ref != call.p.ref)
    ensures Inv(Goto(s, o, call))
  {
    hide CallOk, CreatorsApart, Rows, RefsUnique, Claims;
    var t := Goto(s, o, call);
    SameTables(s, t);
    SameCallOk(s, t, call);
    SameOthers(s, t, o);
    ApartStill(s, t, o);
  }

  lemma MintKeeps(s: Ledger, a: AssetId, exp: int)
    requires Inv(s) && PaidFor(s, a)
    ensures Inv(Mint(s, a, exp))
  {
    Survive(s, Mint(s, a, exp), {});
    PaidForSurvives(s, Mint(s, a, exp), {}, a);
  }

  lemma CallsMove(s: Ledger, st: Step)
    requires Inv(s) && Enabled(s, st) && (st.OtherToken? || st.Begin? || st.Lost?)
    ensures Inv(Next(s, st))
  {
    match st
    case Begin(o, call) => GotoKeeps(s, o, call);
    case Lost(o) => EndKeeps(s, o);
    case OtherToken(c) => Survive(s, Next(s, st), {});
  }

  lemma ListStep(s: Ledger, st: Step)
    requires Inv(s) && Enabled(s, st) && st.List?
    ensures Inv(Next(s, st))
  {
    var call, list := s.calls[st.o], st.list;
    assert CallOk(s, call);
    var paid := FirstPaid(list);
    if list != [] && paid == |list| && list[0].status.Pending? && list[0].ref != "" {
      assert Tracks(s, list[0]);
      if call.CreateList? {
        GotoKeeps(s, st.o, CreateRetrieve(call.job, list[0]));
      } else {
        GotoKeeps(s, st.o, StatusRetrieve(call.original, list[0]));
      }
    } else if call.CreateList? && paid == |list| {
      GotoKeeps(s, st.o, CreateRow(call.job));
    } else if call.StatusList? && paid < |list| {
      assert Behind(s, list[paid].id, call.job);
      MintKeeps(s, call.original, st.exp);
      EndKeeps(Mint(s, call.original, st.exp), st.o);
    } else {
      EndKeeps(s, st.o);
    }
  }

  lemma RetrieveStep(s: Ledger, st: Step)
    requires Inv(s) && Enabled(s, st) && st.Retrieve?
    ensures Inv(Next(s, st))
  {
    var call := s.calls[st.o];
    assert CallOk(s, call);
    var t := Next(s, st);
    if call.CreateRetrieve? && t != End(s, st.o) {
      GotoKeeps(s, st.o, CreateRow(call.job));
    } else if call.StatusRetrieve? && t != End(s, st.o) {
      GotoKeeps(s, st.o, StatusWrite(call.original, call.p.(status := Paid)));
    } else {
      EndKeeps(s, st.o);
    }
  }

  lemma NewRowEvolves(s: Ledger, t: Ledger, p: Payment)
    requires Rows(s) && p.id !in s.used && p.job in s.jobs && p.ref == "" && p.status.Pending?
    requires t == s.(rows := s.rows[p.id := p], used := s.used + {p.id})
    ensures Evolves(s, t, {})
  {
  }

  lemma NewRowRows(s: Ledger, t: Ledger, p: Payment)
    requires Rows(s) && RefsUnique(s) && p.id !in s.used && p.job in s.jobs && p.ref == "" && p.status.Pending?
    requires t == s.(rows := s.rows[p.id := p], used := s.used + {p.id})
    ensures Rows(t) && RefsUnique(t)
  {
    hide CoversPayment;
    forall id | id in t.rows && t.rows[id].status.Paid? ensures Collected(t, t.rows[id]) {
      assert Collected(s, s.rows[id]);
    }
  }

  lemma NewRowIsNobodys(s: Ledger, t: Ledger, p: Payment)
    requires Calls(s) && p.id !in s.used && p.ref == ""
    requires t == s.(rows := s.rows[p.id := p], used := s.used + {p.id})
    ensures forall o :: o in s.calls && Creating(s.calls[o]) ==> s.calls[o].p.id != p.id
    ensures forall o, id :: o in s.calls && s.calls[o].CreateWrite? && id in t.rows ==>
        t.rows[id].ref != s.calls[o].p.ref
  {
    hide CreatorsApart;
    forall o | o in s.calls && Creating(s.calls[o])
      ensures s.calls[o].p.id != p.id
      ensures s.calls[o].CreateWrite? ==> forall id :: id in t.rows ==> t.rows[id].ref != s.calls[o].p.ref
    {
      assert CallOk(s, s.calls[o]);
    }
  }

  lemma NewRowKeeps(s: Ledger, t: Ledger, p: Payment)
    requires Inv(s) && p.id !in s.used && p.job in s.jobs && p.ref == "" && p.status.Pending?
    requires t == s.(rows := s.rows[p.id := p], used := s.used + {p.id})
    ensures Inv(t)
    ensures forall o :: o in s.calls && Creating(s.calls[o]) ==> s.calls[o].p.id != p.id
  {
    hide CreatorsApart, Rows, RefsUnique, CallOk, Evolves, PaidFor;
    NewRowEvolves(s, t, p);
    NewRowRows(s, t, p);
    NewRowIsNobodys(s, t, p);
    Survive(s, t, {});
    SameApart(s, t);
  }

  lemma InsertStep(s: Ledger, st: Step)
    requires Inv(s) && Enabled(s, st) && st.InsertRow?
    ensures Inv(Next(s, st))
  {
    if st.ok {
      var p := Payment(st.id, s.calls[st.o].job, "", Pending, st.price.cents, st.price.currency, st.at);
      var mid := s.(rows := s.rows[st.id := p], used := s.used + {st.id});
      NewRowKeeps(s, mid, p);
      GotoKeeps(mid, st.o, CreateStripe(p));
    } else {
      EndKeeps(s, st.o);
    }
  }

  lemma FreshRefIsNobodys(s: Ledger, i: IntentId)
    requires Calls(s) && i !in s.intents
    ensures forall u :: u in s.calls && s.calls[u].CreateWrite? ==> s.calls[u].p.ref != i
  {
    hide CreatorsApart;
    forall u | u in s.calls && s.calls[u].CreateWrite? ensures s.calls[u].p.ref != i {
      assert CallOk(s, s.calls[u]);
    }
  }

  lemma NewRefIsOk(s: Ledger, t: Ledger, p: Payment, i: IntentId)
    requires Rows(s) && CallOk(s, CreateStripe(p)) && i !in s.intents && i != ""
    requires t == s.(intents := t.intents) && i in t.intents
    ensures CallOk(t, CreateWrite(p.(ref := i)))
  {
  }

  /** A new intent's row is still one no paying path can reach. */
  lemma NewIntentStep(s: Ledger, st: Step)
    requires Inv(s) && Enabled(s, st) && st.NewIntent?
    ensures Inv(Next(s, st))
  {
    hide RefsUnique, Rows, Claims;
    var call := s.calls[st.o];
    assert CallOk(s, call);
    if st.ok {
      var it := Intent(st.status, st.price.cents, 0, st.price.currency, st.secret);
      var mid := s.(intents := s.intents[st.i := it]);
      StripeMoves(s, IntentAppears(st.i, it));
      FreshRefIsNobodys(s, st.i);
      NewRefIsOk(s, mid, call.p, st.i);
      hide CallOk;
      GotoKeeps(mid, st.o, CreateWrite(call.p.(ref := st.i)));
    } else {
      EndKeeps(s, st.o);
    }
  }

  lemma FindStep(s: Ledger, st: Step)
    requires Inv(s) && Enabled(s, st) && st.FindByRef?
    ensures Inv(Next(s, st))
  {
    var call := s.calls[st.o];
    assert CallOk(s, call);
    if st.id in s.rows && !s.rows[st.id].status.Paid? && CoversPayment(call.event, s.rows[st.id]) {
      var p := s.rows[st.id].(status := Paid);
      assert Tracks(s, p) && Collected(s, p);
      GotoKeeps(s, st.o, HookWrite(p));
    } else {
      EndKeeps(s, st.o);
    }
  }

  lemma RefRowKeeps(s: Ledger, t: Ledger, p: Payment, at: int)
    requires Inv(s) && CallOk(s, CreateWrite(p)) && p.id in s.rows
    requires forall o :: o in s.calls && Creating(s.calls[o]) ==> s.calls[o].p.id != p.id && s.calls[o].p.ref != p.ref
    requires t == s.(rows := s.rows[p.id := p.(createdAt := at)])
    ensures Inv(t)
  {
    assert forall o :: o in s.calls && s.calls[o].CreateWrite? ==> CallOk(s, s.calls[o]);
    Survive(s, t, {p.id});
  }

  /** CreateIntent writes its ref: the row was unreachable, so nothing paid is overwritten. */
  lemma RefWrite(s: Ledger, st: Step)
    requires Inv(s) && Enabled(s, st) && st.Write? && s.calls[st.o].CreateWrite?
    ensures Inv(Next(s, st))
  {
    var p := s.calls[st.o].p;
    assert CallOk(s, s.calls[st.o]);
    var idle := End(s, st.o);
    EndKeeps(s, st.o);
    if st.ok {
      CallSurvives(s, idle, {}, CreateWrite(p));
      var t := idle.(rows := idle.rows[p.id := p.(createdAt := st.at)]);
      RefRowKeeps(idle, t, p, st.at);
      assert t == Next(s, st);
    }
  }

  /** A paying write - reconcile's or the webhook's - keeps the ref it read. */
  lemma PaidWrite(s: Ledger, st: Step)
    requires Inv(s) && Enabled(s, st) && st.Write? && !s.calls[st.o].CreateWrite?
    ensures Inv(Next(s, st))
  {
    var call := s.calls[st.o];
    assert CallOk(s, call);
    var mid := if st.ok then s.(rows := s.rows[call.p.id := call.p])
      else if call.StatusWrite? then s.(failedWrites := s.failedWrites + {call.p.id}) else s;
    PaidRowKeeps(s, mid, call.p, st.ok);
    if call.StatusWrite? {
      assert Behind(mid, call.p.id, call.p.job) || call.p.job !in mid.jobs;
      MintKeeps(mid, call.original, st.exp);
      EndKeeps(Mint(mid, call.original, st.exp), st.o);
    } else {
      EndKeeps(mid, st.o);
    }
  }

  lemma PaidRowKeeps(s: Ledger, t: Ledger, p: Payment, ok: bool)
    requires Inv(s) && p.status.Paid? && Collected(s, p) && Tracks(s, p)
    requires if ok then p.id in s.rows && t == s.(rows := s.rows[p.id := p])
             else t == s.(failedWrites := t.failedWrites) && s.failedWrites <= t.failedWrites
    ensures Inv(t)
  {
    hide Inv;
    if ok {
      WrittenKeeps(s, t, p);
    } else {
      NotWrittenKeeps(s, t);
    }
  }

  lemma WrittenEvolves(s: Ledger, t: Ledger, p: Payment)
    requires Rows(s) && p.status.Paid? && Tracks(s, p) && p.ref != ""
    requires p.id in s.rows && t == s.(rows := s.rows[p.id := p])
    ensures Evolves(s, t, {})
    ensures forall id :: id in t.rows ==> id in s.rows && t.rows[id].ref == s.rows[id].ref
  {
  }

  lemma WrittenRows(s: Ledger, t: Ledger, p: Payment)
    requires Rows(s) && RefsUnique(s) && p.status.Paid? && Collected(s, p) && Tracks(s, p)
    requires p.id in s.rows && t == s.(rows := s.rows[p.id := p])
    ensures Rows(t) && RefsUnique(t)
  {
    hide CoversPayment;
    forall id | id in t.rows && t.rows[id].status.Paid? ensures Collected(t, t.rows[id]) {
      assert id == p.id || Collected(s, s.rows[id]);
    }
  }

  lemma RefsStillFree(s: Ledger, t: Ledger)
    requires Calls(s) && forall id :: id in t.rows ==> id in s.rows && t.rows[id].ref == s.rows[id].ref
    ensures forall o, id :: o in s.calls && s.calls[o].CreateWrite? && id in t.rows ==>
        t.rows[id].ref != s.calls[o].p.ref
  {
    hide CreatorsApart;
    forall o, id | o in s.calls && s.calls[o].CreateWrite? && id in t.rows ensures t.rows[id].ref != s.calls[o].p.ref {
      assert CallOk(s, s.calls[o]);
    }
  }

  lemma WrittenKeeps(s: Ledger, t: Ledger, p: Payment)
    requires Inv(s) && p.status.Paid? && Collected(s, p) && Tracks(s, p)
    requires p.id in s.rows && t == s.(rows := s.rows[p.id := p])
    ensures Inv(t)
  {
    WrittenEvolves(s, t, p);
    hide CreatorsApart, CoversPayment, Rows, RefsUnique, CallOk, Evolves, PaidFor;
    WrittenRows(s, t, p);
    RefsStillFree(s, t);
    Survive(s, t, {});
    SameApart(s, t);
  }

  lemma NotWrittenKeeps(s: Ledger, t: Ledger)
    requires Inv(s) && t == s.(failedWrites := t.failedWrites) && s.failedWrites <= t.failedWrites
    ensures Inv(t)
  {
    hide CreatorsApart, CoversPayment;
    assert forall o :: o in s.calls && s.calls[o].CreateWrite? ==> CallOk(s, s.calls[o]);
    Survive(s, t, {});
    SameApart(s, t);
  }

  lemma SameApart(s: Ledger, t: Ledger)
    requires t.calls == s.calls && CreatorsApart(s)
    ensures CreatorsApart(t)
  {
  }

  lemma StepKeeps(s: Ledger, st: Step)
    requires Inv(s) && Enabled(s, st)
    ensures Inv(Next(s, st))
  {
    match st
    case AddJob(_, _) => JobAppears(s, st);
    case DropJob(_) => JobGoes(s, st);
    case IntentMoves(_, _) => StripeMoves(s, st);
    case IntentAppears(_, _) => StripeMoves(s, st);
    case OtherToken(_) => CallsMove(s, st);
    case Begin(_, _) => CallsMove(s, st);
    case Lost(_) => CallsMove(s, st);
    case List(_, _, _) => ListStep(s, st);
    case Retrieve(_, _, _) => RetrieveStep(s, st);
    case InsertRow(_, _, _, _, _) => InsertStep(s, st);
    case NewIntent(_, _, _, _, _, _) => NewIntentStep(s, st);
    case FindByRef(_, _) => FindStep(s, st);
    case Write(o, _, _, _) =>
      if s.calls[o].CreateWrite? {
        RefWrite(s, st);
      } else {
        PaidWrite(s, st);
      }
  }

  lemma {:induction false} RunInv(ss: seq<Ledger>, steps: seq<Step>, i: nat)
    requires IsRun(ss, steps) && i < |ss|
    ensures Inv(ss[i])
  {
    if i > 0 {
      RunInv(ss, steps, i - 1);
      StepKeeps(ss[i - 1], steps[i - 1]);
    }
  }

  // --- theorems ---------------------------------------------------------------------------------

  // Only three kinds of step touch the payment rows.

  lemma ListLeavesRows(s: Ledger, o: nat, call: Call, list: seq<Payment>, exp: int)
    ensures var t := AfterList(s, o, call, list, exp); t.rows == s.rows && t.used == s.used
  {
    hide FirstPaid;
  }

  lemma RetrieveLeavesRows(price: Price, s: Ledger, o: nat, call: Call, ok: bool)
    ensures var t := AfterRetrieve(price, s, o, call, ok); t.rows == s.rows && t.used == s.used
  {
    hide Reusable, CoversPayment;
  }

  lemma FindLeavesRows(s: Ledger, o: nat, call: Call, id: PayId)
    ensures var t := AfterFind(s, o, call, id); t.rows == s.rows && t.used == s.used
  {
    hide CoversPayment;
  }

  predicate TouchesRows(st: Step) {
    st.DropJob? || st.InsertRow? || st.Write?
  }

  lemma OtherStepsLeaveRows(s: Ledger, st: Step)
    requires !TouchesRows(st)
    ensures Next(s, st).rows == s.rows && Next(s, st).used == s.used
  {
    hide AfterList, AfterRetrieve, AfterFind;
    match st
    case List(o, list, exp) => if o in s.calls { ListLeavesRows(s, o, s.calls[o], list, exp); }
    case Retrieve(o, ok, price) => if o in s.calls { RetrieveLeavesRows(price, s, o, s.calls[o], ok); }
    case FindByRef(o, id) => if o in s.calls { FindLeavesRows(s, o, s.calls[o], id); }
    case _ =>
  }

  lemma WriteKeepsPaid(s: Ledger, st: Step, id: PayId)
    requires Calls(s) && Enabled(s, st) && st.Write?
    requires id in s.rows && s.rows[id].status.Paid? && id in Next(s, st).rows
    ensures var p, q := s.rows[id], Next(s, st).rows[id];
      q.status.Paid? && q.ref == p.ref && SameTerms(p, q)
  {
    hide CoversPayment, CreatorsApart;
    assert CallOk(s, s.calls[st.o]);
  }

  lemma InsertKeepsPaid(s: Ledger, st: Step, id: PayId)
    requires Rows(s) && Enabled(s, st) && st.InsertRow? && id in s.rows
    ensures id in Next(s, st).rows && Next(s, st).rows[id] == s.rows[id]
  {
  }

  lemma DropKeepsPaid(s: Ledger, st: Step, id: PayId)
    requires st.DropJob? && id in s.rows && id in Next(s, st).rows
    ensures Next(s, st).rows[id] == s.rows[id]
  {
  }

  lemma PaidStaysPut(s: Ledger, st: Step, id: PayId)
    requires Inv(s) && Enabled(s, st)
    requires id in s.rows && s.rows[id].status.Paid? && id in Next(s, st).rows
    ensures var p, q := s.rows[id], Next(s, st).rows[id];
      q.status.Paid? && q.ref == p.ref && SameTerms(p, q)
  {
    hide Next, Enabled, Rows, RefsUnique, Calls, Claims;
    if st.Write? {
      WriteKeepsPaid(s, st, id);
    } else if st.InsertRow? {
      InsertKeepsPaid(s, st, id);
    } else if st.DropJob? {
      DropKeepsPaid(s, st, id);
    } else {
      OtherStepsLeaveRows(s, st);
    }
  }

  lemma WriteKeepsKeys(s: Ledger, o: nat, call: Call, at: int, exp: int, ok: bool)
    requires ok && (call.CreateWrite? || call.StatusWrite? || call.HookWrite?) ==> call.p.id in s.rows
    ensures AfterWrite(s, o, call, at, exp, ok).rows.Keys == s.rows.Keys
  {
  }

  lemma WriteAddsNoRow(s: Ledger, st: Step)
    requires Enabled(s, st) && st.Write?
    ensures Next(s, st).rows.Keys == s.rows.Keys && Next(s, st).used == s.used
  {
    hide AfterList, AfterRetrieve, AfterFind, AfterWrite, CanBegin, IsListing;
    WriteKeepsKeys(s, st.o, s.calls[st.o], st.at, st.exp, st.ok);
    WriteKeepsUsed(s, st.o, s.calls[st.o], st.at, st.exp, st.ok);
  }

  lemma NoRowReturns(s: Ledger, st: Step, id: PayId)
    requires Enabled(s, st) && id in s.used && id !in s.rows
    ensures id !in Next(s, st).rows && id in Next(s, st).used
  {
    hide AfterList, AfterRetrieve, AfterFind, AfterWrite;
    if st.Write? {
      WriteAddsNoRow(s, st);
    } else if !TouchesRows(st) {
      OtherStepsLeaveRows(s, st);
    }
  }

  lemma {:induction false} GoneStaysGone(ss: seq<Ledger>, steps: seq<Step>, id: PayId, i: nat, j: nat)
    requires IsRun(ss, steps) && i <= j < |ss|
    requires id in ss[i].used && id !in ss[i].rows
    ensures id !in ss[j].rows && id in ss[j].used
    decreases j
  {
    hide Next, Enabled;
    if i < j {
      GoneStaysGone(ss, steps, id, i, j - 1);
      NoRowReturns(ss[j - 1], steps[j - 1], id);
    }
  }

  lemma PaidStaysOnce(ss: seq<Ledger>, steps: seq<Step>, id: PayId, k: nat)
    requires IsRun(ss, steps) && k + 1 < |ss|
    requires id in ss[k].rows && ss[k].rows[id].status.Paid? && id in ss[k + 1].rows
    ensures var p, q := ss[k].rows[id], ss[k + 1].rows[id];
      q.status.Paid? && q.ref == p.ref && SameTerms(p, q)
  {
    RunInv(ss, steps, k);
    PaidStaysPut(ss[k], steps[k], id);
  }

  lemma RowWasThere(ss: seq<Ledger>, steps: seq<Step>, id: PayId, i: nat, k: nat, j: nat)
    requires IsRun(ss, steps) && i <= k <= j < |ss|
    requires id in ss[i].rows && id in ss[j].rows
    ensures id in ss[k].rows
  {
    if id !in ss[k].rows {
      RunInv(ss, steps, i);
      UsedGrows(ss, steps, id, i, k);
      GoneStaysGone(ss, steps, id, k, j);
    }
  }

  /** In every interleaving no full-row Update turns a paid row back to pending, clears or
      changes its provider ref, or alters what was charged - until its job is deleted. */
  lemma {:induction false} PaidStaysPaid(ss: seq<Ledger>, steps: seq<Step>, id: PayId, i: nat, j: nat)
    requires IsRun(ss, steps) && i <= j < |ss|
    requires id in ss[i].rows && ss[i].rows[id].status.Paid? && id in ss[j].rows
    ensures ss[j].rows[id].status.Paid? && ss[j].rows[id].ref == ss[i].rows[id].ref
    ensures SameTerms(ss[i].rows[id], ss[j].rows[id])
    decreases j
  {
    hide *;
    SameTermsSelf(ss[i].rows[id]);
    if i < j {
      RowWasThere(ss, steps, id, i, j - 1, j);
      PaidStaysPaid(ss, steps, id, i, j - 1);
      PaidStaysOnce(ss, steps, id, j - 1);
      SameTermsChain(ss[i].rows[id], ss[j - 1].rows[id], ss[j].rows[id]);
    }
  }

  lemma SameTermsSelf(p: Payment)
    ensures SameTerms(p, p)
  {
  }

  lemma SameTermsChain(p: Payment, q: Payment, r: Payment)
    requires SameTerms(p, q) && SameTerms(q, r)
    ensures SameTerms(p, r)
  {
  }

  lemma WriteKeepsUsed(s: Ledger, o: nat, call: Call, at: int, exp: int, ok: bool)
    ensures AfterWrite(s, o, call, at, exp, ok).used == s.used
  {
  }

  lemma UsedGrowsOnce(s: Ledger, st: Step, id: PayId)
    requires id in s.used
    ensures id in Next(s, st).used
  {
    hide AfterList, AfterRetrieve, AfterFind, AfterWrite;
    if !TouchesRows(st) {
      OtherStepsLeaveRows(s, st);
    } else if st.Write? && st.o in s.calls {
      WriteKeepsUsed(s, st.o, s.calls[st.o], st.at, st.exp, st.ok);
    }
  }

  lemma {:induction false} UsedGrows(ss: seq<Ledger>, steps: seq<Step>, id: PayId, i: nat, j: nat)
    requires IsRun(ss, steps) && i <= j < |ss| && id in ss[i].used
    ensures id in ss[j].used
    decreases j
  {
    hide Next, Enabled;
    if i < j {
      UsedGrows(ss, steps, id, i, j - 1);
      UsedGrowsOnce(ss[j - 1], steps[j - 1], id);
    }
  }

  /** Every paid row refers to a succeeded intent that brought in at least its amount, in its
      currency. */
  lemma PaidWasCollected(ss: seq<Ledger>, steps: seq<Step>, i: nat)
    requires IsRun(ss, steps) && i < |ss|
    ensures forall id :: id in ss[i].rows && ss[i].rows[id].status.Paid? ==>
      var p := ss[i].rows[id];
      && p.ref in ss[i].intents && ss[i].intents[p.ref].status.Succeeded?
      && (ss[i].intents[p.ref].received == 0 ==> ss[i].intents[p.ref].amount >= p.amount)
      && (ss[i].intents[p.ref].received != 0 ==> ss[i].intents[p.ref].received >= p.amount)
      && SameCurrency(ss[i].intents[p.ref].currency, p.currency)
  {
    RunInv(ss, steps, i);
    forall id | id in ss[i].rows && ss[i].rows[id].status.Paid?
      ensures Collected(ss[i], ss[i].rows[id]) && PaysInFull(ss[i].intents[ss[i].rows[id].ref], ss[i].rows[id])
    {
      CoversIff(ss[i].intents[ss[i].rows[id].ref], ss[i].rows[id]);
    }
  }

  /** The assets table holds the originals of existing jobs (and previews). */
  ghost predicate HoldsOriginals(s: Ledger, assets: map<Share.AssetId, Share.Asset>) {
    forall a :: a in assets && assets[a].kind.Original? ==>
      a in s.owner && s.owner[a] == assets[a].job && assets[a].job in s.jobs
  }

  /** Whatever opens as an original belongs to a job with a payment Stripe collected in full,
      recorded as paid - unless Status failed to write that record and minted the link anyway. */
  lemma OriginalWasPaidFor(ss: seq<Ledger>, steps: seq<Step>, i: nat, mac: Tokens.Mac,
                           macked: set<Base64Url.Bytes>, assets: map<Share.AssetId, Share.Asset>,
                           links: map<Share.JobId, bool>, tok: Base64Url.Bytes, now: int)
    returns (id: PayId)
    requires IsRun(ss, steps) && i < |ss|
    requires HoldsOriginals(ss[i], assets)
    requires Tokens.OnlyMacked(macked, ss[i].claims) && Tokens.Unguessed(mac, macked, tok)
    requires Share.Resolve(mac, assets, links, tok, Original(), Basics.Kind.Original, now).Served?
    ensures var r := Share.Resolve(mac, assets, links, tok, Original(), Basics.Kind.Original, now);
      && id in ss[i].rows && ss[i].rows[id].job == r.asset.job && ss[i].rows[id].ref in ss[i].intents
      && ss[i].intents[ss[i].rows[id].ref].status.Succeeded?
      && PaysInFull(ss[i].intents[ss[i].rows[id].ref], ss[i].rows[id])
      && (id !in ss[i].failedWrites ==> ss[i].rows[id].status.Paid?)
  {
    RunInv(ss, steps, i);
    var c := Tokens.VerifiedWasSigned(mac, macked, ss[i].claims, Original(), tok, now);
    assert PaidFor(ss[i], c.subject);
    id :| Behind(ss[i], id, ss[i].owner[c.subject]);
    CoversIff(ss[i].intents[ss[i].rows[id].ref], ss[i].rows[id]);
  }
}
