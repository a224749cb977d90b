// Payments and the original link (internals/app/payment/service.go, repo.go): CreateIntent,
// Status and Webhook split at every database and Stripe call, interleaved freely. Update is a
// full-row write of the copy a call read earlier. Stripe intent ids are new and non-empty, and a
// succeeded intent never changes again.
module Payments {
  import Base64Url
  import Listings
  import Tokens

  type JobId = string
  type AssetId = Base64Url.Bytes
  type PayId = string
  type IntentId = string    // "" is an unset provider_ref

  datatype PayStatus = Pending | Paid | Failed | Refunded

  datatype Payment = Payment(
    id: PayId, job: JobId, ref: IntentId, status: PayStatus, amount: int, currency: string, createdAt: int)

  datatype IntentStatus = RequiresPaymentMethod | RequiresConfirmation | RequiresAction | Succeeded | OtherStatus

  datatype Intent = Intent(status: IntentStatus, amount: int, received: int, currency: string, secret: string)

  datatype Price = Price(cents: int, currency: string)

  // --- the decisions ---------------------------------------------------------------------

  function LowerChar(c: char): char {
    if 'A' <= c <= 'Z' then c + 32 as char else c
  }

  /** strings.EqualFold on currency codes, which are ASCII. */
  predicate EqualFold(a: string, b: string) {
    |a| == |b| && forall i :: 0 <= i < |a| ==> LowerChar(a[i]) == LowerChar(b[i])
  }

  predicate CoversPayment(it: Intent, p: Payment) {
    var received := if it.received == 0 then it.amount else it.received;
    received >= p.amount && EqualFold(it.currency, p.currency)
  }

  predicate Reusable(price: Price, it: Intent) {
    && (it.status.RequiresPaymentMethod? || it.status.RequiresConfirmation? || it.status.RequiresAction?)
    && it.secret != "" && it.amount == price.cents && it.currency == price.currency
  }

  /** Two currency codes that differ in the case of letters at most. */
  ghost predicate SameCurrency(a: string, b: string) {
    |a| == |b| && forall i :: 0 <= i < |a| ==>
      || a[i] == b[i]
      || ('A' <= a[i] <= 'Z' && 'a' <= b[i] <= 'z' && b[i] as int - a[i] as int == 'a' as int - 'A' as int)
      || ('a' <= a[i] <= 'z' && 'A' <= b[i] <= 'Z' && a[i] as int - b[i] as int == 'a' as int - 'A' as int)
  }

  /** What the intent brought in - or, where Stripe does not say, what it is for - is at least what
      the payment asks for, in its currency. */
  ghost predicate PaysInFull(it: Intent, p: Payment) {
    && (it.received == 0 ==> it.amount >= p.amount)
    && (it.received != 0 ==> it.received >= p.amount)
    && SameCurrency(it.currency, p.currency)
  }

  lemma SameLetter(a: char, b: char)
    ensures LowerChar(a) == LowerChar(b) <==>
              || a == b
              || ('A' <= a <= 'Z' && 'a' <= b <= 'z' && b as int - a as int == 'a' as int - 'A' as int)
              || ('a' <= a <= 'z' && 'A' <= b <= 'Z' && a as int - b as int == 'a' as int - 'A' as int)
  {
  }

  lemma EqualFoldIff(a: string, b: string)
    ensures EqualFold(a, b) <==> SameCurrency(a, b)
  {
    hide LowerChar;
    if |a| == |b| {
      forall i | 0 <= i < |a|
        ensures LowerChar(a[i]) == LowerChar(b[i]) <==>
                  || a[i] == b[i]
                  || ('A' <= a[i] <= 'Z' && 'a' <= b[i] <= 'z' && b[i] as int - a[i] as int == 'a' as int - 'A' as int)
                  || ('a' <= a[i] <= 'z' && 'A' <= b[i] <= 'Z' && a[i] as int - b[i] as int == 'a' as int - 'A' as int)
      {
        SameLetter(a[i], b[i]);
      }
    }
  }

  /** The code's check is exactly that the intent pays in full. */
  lemma CoversIff(it: Intent, p: Payment)
    ensures CoversPayment(it, p) <==> PaysInFull(it, p)
  {
    EqualFoldIff(it.currency, p.currency);
  }

  function FirstPaid(list: seq<Payment>): (i: nat)
    ensures i <= |list|
    ensures i < |list| ==> list[i].status.Paid?
    ensures forall k :: 0 <= k < i ==> !list[k].status.Paid?
  {
    if list == [] then 0 else if list[0].status.Paid? then 0 else 1 + FirstPaid(list[1..])
  }

  // --- state -------------------------------------------------------------------------------

  /** A call in flight, at the point where its next database or Stripe call happens. */
  datatype Call =
    | CreateList(job: JobId)
    | CreateRetrieve(job: JobId, p: Payment)
    | CreateRow(job: JobId)
    | CreateStripe(p: Payment)
    | CreateWrite(p: Payment)
    | StatusList(job: JobId, original: AssetId)
    | StatusRetrieve(original: AssetId, p: Payment)
    | StatusWrite(original: AssetId, p: Payment)
    | HookFind(intent: IntentId, event: Intent)
    | HookWrite(p: Payment)

  datatype Ledger = Ledger(
    rows: map<PayId, Payment>,
    intents: map<IntentId, Intent>,
    jobs: set<JobId>,              // existing jobs; deleting one cascades to its payments
    owner: map<AssetId, JobId>,    // every original asset ever created; ids are never reused
    used: set<PayId>,              // every payment id ever issued
    calls: map<nat, Call>,
    claims: set<Tokens.Claim>,     // every token claim ever signed
    failedWrites: set<PayId>)      // payments whose "paid" write failed in Status

  function Original(): Base64Url.Bytes {
    Tokens.Ascii("original")
  }

  function IdOf(p: Payment): PayId {
    p.id
  }

  function OfJob(job: JobId): Payment -> bool {
    (p: Payment) => p.job == job
  }

  function NewestFirst(p: Payment): int {
    -p.createdAt
  }

  /** ListByJob's answer: all of the job's payments, each once, newest first. */
  ghost predicate IsListing(rows: map<PayId, Payment>, job: JobId, list: seq<Payment>) {
    Listings.Lists(rows, IdOf, OfJob(job), NewestFirst, rows.Keys, list)
  }

  /** The steps that read the configured price carry it: a restart may change it. */
  datatype Step =
    | AddJob(job: JobId, original: AssetId)
    | DropJob(job: JobId)
    | IntentMoves(i: IntentId, to: Intent)
    | IntentAppears(i: IntentId, it: Intent)    // created outside this service
    | OtherToken(c: Tokens.Claim)
    | Begin(o: nat, call: Call)
    | Lost(o: nat)
    | List(o: nat, list: seq<Payment>, exp: int)
    | Retrieve(o: nat, ok: bool, price: Price)
    | InsertRow(o: nat, id: PayId, at: int, ok: bool, price: Price)
    | NewIntent(o: nat, i: IntentId, secret: string, status: IntentStatus, ok: bool, price: Price)
    | FindByRef(o: nat, id: PayId)
    | Write(o: nat, at: int, exp: int, ok: bool)

  ghost predicate CanBegin(s: Ledger, call: Call) {
    match call
    case CreateList(job) => job in s.jobs
    case StatusList(job, original) => job in s.jobs && original in s.owner && s.owner[original] == job
    case HookFind(i, event) => i in s.intents && s.intents[i] == event && event.status.Succeeded?
    case _ => false
  }

  ghost predicate Enabled(s: Ledger, st: Step) {
    match st
    case AddJob(job, a) => job !in s.owner.Values && job !in s.jobs && a !in s.owner
    case DropJob(job) => true
    case IntentMoves(i, to) => i in s.intents && !s.intents[i].status.Succeeded?
    case IntentAppears(i, it) => i !in s.intents && i != ""
    case OtherToken(c) => c.purpose != Original()
    case Begin(o, call) => o !in s.calls && CanBegin(s, call)
    case Lost(o) => o in s.calls
    case List(o, list, exp) =>
      o in s.calls && (s.calls[o].CreateList? || s.calls[o].StatusList?) && IsListing(s.rows, s.calls[o].job, list)
    case Retrieve(o, ok, _) =>
      o in s.calls && (s.calls[o].CreateRetrieve? || s.calls[o].StatusRetrieve?)
          && (ok ==> s.calls[o].p.ref in s.intents)
    case InsertRow(o, id, at, ok, _) =>
      o in s.calls && s.calls[o].CreateRow? && (ok ==> id !in s.used && s.calls[o].job in s.jobs)
    case NewIntent(o, i, secret, status, ok, _) =>
      o in s.calls && s.calls[o].CreateStripe? && (ok ==> i !in s.intents && i != "" && !status.Succeeded?)
    case FindByRef(o, id) =>
      && o in s.calls && s.calls[o].HookFind?
      && (id in s.rows ==> s.rows[id].ref == s.calls[o].intent)
      && (id !in s.rows ==> forall x :: x in s.rows ==> s.rows[x].ref != s.calls[o].intent)
    case Write(o, at, exp, ok) =>
      && o in s.calls && (s.calls[o].CreateWrite? || s.calls[o].StatusWrite? || s.calls[o].HookWrite?)
      && (ok ==> s.calls[o].p.id in s.rows)
  }

  // --- one step ------------------------------------------------------------------------------

  function End(s: Ledger, o: nat): Ledger {
    s.(calls := s.calls - {o})
  }

  function Goto(s: Ledger, o: nat, call: Call): Ledger {
    s.(calls := s.calls[o := call])
  }

  /** Status's last act: sign an original link. */
  function Mint(s: Ledger, original: AssetId, exp: int): Ledger {
    s.(claims := s.claims + {Tokens.Claim(Original(), original, exp)})
  }

  function AfterList(s: Ledger, o: nat, call: Call, list: seq<Payment>, exp: int): Ledger {
    match call
    case CreateList(job) =>
      if FirstPaid(list) < |list| then End(s, o)
      else if list != [] && list[0].status.Pending? && list[0].ref != "" then Goto(s, o, CreateRetrieve(job, list[0]))
      else Goto(s, o, CreateRow(job))
    case StatusList(job, original) =>
      if list == [] then End(s, o)
      else if FirstPaid(list) < |list| then End(Mint(s, original, exp), o)
      else if list[0].status.Pending? && list[0].ref != "" then Goto(s, o, StatusRetrieve(original, list[0]))
      else End(s, o)
    case _ => s
  }

  function AfterRetrieve(price: Price, s: Ledger, o: nat, call: Call, ok: bool): Ledger {
    match call
    case CreateRetrieve(job, p) =>
      if ok && p.ref in s.intents && Reusable(price, s.intents[p.ref]) then End(s, o) else Goto(s, o, CreateRow(job))
    case StatusRetrieve(original, p) =>
      if ok && p.ref in s.intents && s.intents[p.ref].status.Succeeded? && CoversPayment(s.intents[p.ref], p) then
        Goto(s, o, StatusWrite(original, p.(status := Paid)))
      else End(s, o)
    case _ => s
  }

  function AfterFind(s: Ledger, o: nat, call: Call, id: PayId): Ledger {
    if call.HookFind? && id in s.rows && !s.rows[id].status.Paid? && CoversPayment(call.event, s.rows[id]) then
      Goto(s, o, HookWrite(s.rows[id].(status := Paid)))
    else End(s, o)
  }

  /** The full-row write. CreateIntent's copy never read created_at back, so what it writes there
      is arbitrary; reconcile sets Status in memory before the write, so Status mints either way. */
  function AfterWrite(s: Ledger, o: nat, call: Call, at: int, exp: int, ok: bool): Ledger {
    match call
    case CreateWrite(p) => End(if ok then s.(rows := s.rows[p.id := p.(createdAt := at)]) else s, o)
    case StatusWrite(original, p) =>
      End(Mint(if ok then s.(rows := s.rows[p.id := p])
          else s.(failedWrites := s.failedWrites + {p.id}), original, exp), o)
    case HookWrite(p) => End(if ok then s.(rows := s.rows[p.id := p]) else s, o)
    case _ => s
  }

  function Next(s: Ledger, st: Step): Ledger {
    match st
    case AddJob(job, a) => s.(jobs := s.jobs + {job}, owner := s.owner[a := job])
    case DropJob(job) =>
      s.(jobs := s.jobs - {job}, rows := map id | id in s.rows && s.rows[id].job != job :: s.rows[id])
    case IntentMoves(i, to) => s.(intents := s.intents[i := to])
    case IntentAppears(i, it) => s.(intents := s.intents[i := it])
    case OtherToken(c) => s.(claims := s.claims + {c})
    case Begin(o, call) => Goto(s, o, call)
    case Lost(o) => End(s, o)
    case List(o, list, exp) => if o in s.calls then AfterList(s, o, s.calls[o], list, exp) else s
    case Retrieve(o, ok, price) => if o in s.calls then AfterRetrieve(price, s, o, s.calls[o], ok) else s
    case InsertRow(o, id, at, ok, price) =>
      if ok && o in s.calls && s.calls[o].CreateRow? then
        var p := Payment(id, s.calls[o].job, "", Pending, price.cents, price.currency, at);
        Goto(s.(rows := s.rows[id := p], used := s.used + {id}), o, CreateStripe(p))
      else End(s, o)
    case NewIntent(o, i, secret, status, ok, price) =>
      if ok && o in s.calls && s.calls[o].CreateStripe? then
        Goto(s.(intents := s.intents[i := Intent(status, price.cents, 0, price.currency, secret)]), o,
             CreateWrite(s.calls[o].p.(ref := i)))
      else End(s, o)
    case FindByRef(o, id) => if o in s.calls then AfterFind(s, o, s.calls[o], id) else s
    case Write(o, at, exp, ok) => if o in s.calls then AfterWrite(s, o, s.calls[o], at, exp, ok) else s
  }

  const EMPTY: Ledger := Ledger(map[], map[], {}, map[], {}, map[], {}, {})

  ghost predicate IsRun(ss: seq<Ledger>, steps: seq<Step>) {
    && |ss| == |steps| + 1 && ss[0] == EMPTY
    && forall i :: 0 <= i < |steps| ==> Enabled(ss[i], steps[i]) && ss[i + 1] == Next(ss[i], steps[i])
  }
}
