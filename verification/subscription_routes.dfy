/** The subscription routes (routes/subscriptionRoutes.js): create and update
    with the embedded trainer snapshot, the payments report over a date
    window, and the month-by-month report of a year. The clock's current time
    and year and the local-time month of an instant are parameters. */
module SubscriptionRoutes {
  import opened Wrappers
  import opened Collections
  import opened Text
  import opened SubscriptionModel
  import opened Dates

  /** A stored trainer (models/Trainer.js). */
  datatype Trainer = Trainer(
    name: Option<string>,
    contactNumber: Option<string>,
    email: Option<string>,
    specialization: Option<string>,
    experience: Option<int>)

  /** The trainer collection, by `_id`. */
  type Trainers = map<string, Trainer>

  /** The `trainerData` both routes build: the five copied paths of the
      trainer the id names, or `null` when the id is missing, empty or
      unknown. */
  function Snapshot(trainers: Trainers, trainerId: Option<string>): (r: Option<TrainerSnapshot>)
    ensures r.None? <==> !Given(trainerId) || trainerId.value !in trainers
    ensures r.Some? ==> var t := trainers[trainerId.value];
      && r.value.id == trainerId.value
      && r.value.name == t.name && r.value.specialization == t.specialization
      && r.value.contactNumber == t.contactNumber && r.value.email == t.email
  {
    if Given(trainerId) && trainerId.value in trainers then
      var t := trainers[trainerId.value];
      Some(TrainerSnapshot(trainerId.value, t.name, t.specialization, t.contactNumber, t.email))
    else None
  }

  /** Only the five copied paths reach the snapshot: trainers that differ
      in experience alone give the same snapshot. */
  lemma SnapshotIgnoresExperience(trainers: Trainers, id: string, e: Option<int>)
    requires id in trainers && id != ""
    ensures Snapshot(trainers[id := trainers[id].(experience := e)], Some(id)) == Snapshot(trainers, Some(id))
  {
  }

  /** A request body: `trainerId` and the rest of the keys, each of which may
      be absent. A `trainer` key of the body is overridden by the snapshot. */
  datatype SubBody = SubBody(
    trainerId: Option<string>,
    subscriptionId: Option<string>,
    clientId: Option<string>,
    trainer: Option<TrainerSnapshot>,
    packageType: Option<string>,
    packageName: Option<string>,
    startDate: Option<int>,
    endDate: Option<int>,
    price: Option<int>,
    amountPaid: Option<int>,
    paymentMode: Option<string>)

  /** `{ ...rest, trainer: trainerData }` as a document. */
  function Fields(body: SubBody, trainer: Option<TrainerSnapshot>): (s: Subscription)
    ensures s.trainer == trainer
    ensures s.clientId == body.clientId && s.subscriptionId == body.subscriptionId
  {
    Subscription(body.subscriptionId, body.clientId, trainer, body.packageType, body.packageName,
      body.startDate, body.endDate, body.price, body.amountPaid, body.paymentMode)
  }

  /** The answers of the routes: 201 with the new document, 200 with the
      updated document or `null`, 400 with an error message. */
  datatype Reply = Created(doc: Subscription) | Json(found: Option<Subscription>) | Failed(message: string)

  function StatusCode(r: Reply): int {
    match r
    case Created(_) => 201
    case Json(_) => 200
    case Failed(_) => 400
  }

  /** The invoice identifier the hook gives a new subscription of the client
      with `_id` `cid`. */
  function NextInvoice(store: SubStore, clients: ClientIds, cid: string): string
    requires cid in clients
  {
    InvoiceId(ClientText(clients[cid]), CountFor(store, cid) + 1)
  }

  /** POST /: builds the document with the trainer snapshot and saves it;
      a failed save answers 400 with its message and stores nothing. A valid
      body of a known client is created exactly when the invoice identifier
      the hook computes is free, and the created document is the body's
      paths with the snapshot, the default amount paid and that identifier. */
  function CreateSubscription(store: SubStore, clients: ClientIds, trainers: Trainers, body: SubBody, newId: string): (res: (Reply, SubStore))
    ensures res.0.Created? || res.0.Failed?
    ensures res.0.Failed? ==> res.1 == store
    ensures res.0.Created? ==> res.1 == store + [Stored(newId, res.0.doc)]
    ensures res.0.Created? ==> res.0.doc.trainer == Snapshot(trainers, body.trainerId)
    ensures res.0.Created? ==> res.0.doc.amountPaid == Some(body.amountPaid.GetOr(0))
    ensures !Valid(Fields(body, None)) ==> res.0 == Failed(ValidationFailed)
    ensures Valid(Fields(body, None)) && body.clientId.value !in clients ==> res.0 == Failed(ClientNotFound)
    ensures Valid(Fields(body, None)) && body.clientId.value in clients ==>
      (res.0.Created? <==> !InvoiceTaken(store, NextInvoice(store, clients, body.clientId.value)))
    ensures res.0.Created? ==>
      && body.clientId.Some? && body.clientId.value in clients
      && res.0.doc.subscriptionId == Some(NextInvoice(store, clients, body.clientId.value))
      && res.0.doc.clientId == body.clientId
      && res.0.doc.packageType == body.packageType && res.0.doc.packageName == body.packageName
      && res.0.doc.startDate == body.startDate && res.0.doc.endDate == body.endDate
      && res.0.doc.price == body.price && res.0.doc.paymentMode == body.paymentMode
  {
    var doc := WithDefaults(Fields(body, Snapshot(trainers, body.trainerId)));
    match SaveNew(store, clients, doc, newId)
    case Err(m) => (Failed(m), store)
    case Ok(r) => (Created(r.0), r.1)
  }

  function Over<T>(given: Option<T>, stored: Option<T>): Option<T> {
    if given.Some? then given else stored
  }

  /** Whether the update of the document at `k` would give it an invoice
      identifier another subscription holds. */
  predicate InvoiceClash(store: SubStore, k: nat, body: SubBody) {
    body.subscriptionId.Some? && InvoiceHeldByOther(store, k, body.subscriptionId.value)
  }

  /** `findByIdAndUpdate(id, { ...rest, trainer: trainerData })`: the body's
      paths replace the stored ones, `trainer` is always written (so an update
      without `trainerId` clears it), no validation or hook runs. An unknown
      id answers `null` and changes nothing. A body whose `subscriptionId`
      another subscription holds breaks the unique index: 400 with the
      duplicate-key message, and nothing changes. */
  function UpdateSubscription(store: SubStore, trainers: Trainers, id: string, body: SubBody): (res: (Reply, SubStore))
    ensures res.0.Json? || res.0.Failed?
    ensures res.0 == Json(None) <==> forall k :: 0 <= k < |store| ==> store[k].id != id
    ensures res.0.Failed? ==> res.0 == Failed(DuplicateKey)
    ensures !res.0.Json? || res.0.found.None? ==> res.1 == store
    ensures res.0.Failed? <==>
      exists k :: 0 <= k < |store| && store[k].id == id && (forall j :: 0 <= j < k ==> store[j].id != id)
        && InvoiceClash(store, k, body)
    ensures res.0.Json? && res.0.found.Some? ==>
      exists k :: 0 <= k < |store| && store[k].id == id && (forall j :: 0 <= j < k ==> store[j].id != id)
        && !InvoiceClash(store, k, body) && res.1 == store[k := Stored(id, res.0.found.value)]
    ensures res.0.Json? && res.0.found.Some? ==> res.0.found.value.trainer == Snapshot(trainers, body.trainerId)
  {
    match FindById(store, id)
    case None => (Json(None), store)
    case Some(k) =>
      if InvoiceClash(store, k, body) then (Failed(DuplicateKey), store)
      else
        var s := store[k].doc;
        var updated := Subscription(
          Over(body.subscriptionId, s.subscriptionId), Over(body.clientId, s.clientId),
          Snapshot(trainers, body.trainerId),
          Over(body.packageType, s.packageType), Over(body.packageName, s.packageName),
          Over(body.startDate, s.startDate), Over(body.endDate, s.endDate),
          Over(body.price, s.price), Over(body.amountPaid, s.amountPaid), Over(body.paymentMode, s.paymentMode));
        (Json(Some(updated)), store[k := Stored(id, updated)])
  }

  /** Updates keep the invoice identifiers unique: a clashing one is refused,
      and any other is either new to the store or the document's own. */
  lemma UpdateKeepsInvoicesUnique(store: SubStore, trainers: Trainers, id: string, body: SubBody)
    requires InvoicesUnique(store)
    ensures InvoicesUnique(UpdateSubscription(store, trainers, id, body).1)
  {
    match FindById(store, id)
    case None =>
    case Some(k) =>
      if !InvoiceClash(store, k, body) {
        var r := UpdateSubscription(store, trainers, id, body).1;
        var v := r[k].doc.subscriptionId;
        assert v.Some? ==> forall j :: 0 <= j < |store| && j != k ==> store[j].doc.subscriptionId != v;
        forall i, j | 0 <= i < j < |r| && r[i].doc.subscriptionId.Some?
          ensures r[i].doc.subscriptionId != r[j].doc.subscriptionId
        {
        }
      }
  }

  /** Two subscriptions of client "H4001"; giving the second the first one's
      invoice identifier is refused and the store is unchanged. */
  lemma UpdateRefusesTakenInvoice(trainers: Trainers, s1: Subscription, s2: Subscription)
    requires s1.subscriptionId == Some("INV-H4001-01") && s2.subscriptionId == Some("INV-H4001-02")
    ensures var store := [Stored("a", s1), Stored("b", s2)];
      var body := SubBody(None, Some("INV-H4001-01"), None, None, None, None, None, None, None, None, None);
      UpdateSubscription(store, trainers, "b", body) == (Failed(DuplicateKey), store)
  {
    var store := [Stored("a", s1), Stored("b", s2)];
    assert FindById(store, "b") == Some(1);
    assert store[0].doc.subscriptionId == Some("INV-H4001-01");
  }

  /** What update writes into a stored subscription, path by path. */
  lemma UpdatedSubscription(store: SubStore, trainers: Trainers, k: nat, body: SubBody)
    requires k < |store|
    requires forall j :: 0 <= j < |store| && j != k ==> store[j].id != store[k].id
    requires !InvoiceClash(store, k, body)
    ensures var s := store[k].doc;
      var u := UpdateSubscription(store, trainers, store[k].id, body).0.found.value;
      && u.trainer == Snapshot(trainers, body.trainerId)
      && (body.trainerId.None? ==> u.trainer.None?)
      && u.subscriptionId == (if body.subscriptionId.Some? then body.subscriptionId else s.subscriptionId)
      && u.clientId == (if body.clientId.Some? then body.clientId else s.clientId)
      && u.startDate == (if body.startDate.Some? then body.startDate else s.startDate)
      && u.endDate == (if body.endDate.Some? then body.endDate else s.endDate)
      && u.price == (if body.price.Some? then body.price else s.price)
      && u.amountPaid == (if body.amountPaid.Some? then body.amountPaid else s.amountPaid)
      && u.packageType == (if body.packageType.Some? then body.packageType else s.packageType)
      && u.packageName == (if body.packageName.Some? then body.packageName else s.packageName)
      && u.paymentMode == (if body.paymentMode.Some? then body.paymentMode else s.paymentMode)
      && (body == SubBody(body.trainerId, None, None, None, None, None, None, None, None, None, None) ==>
            u == s.(trainer := Snapshot(trainers, body.trainerId)))
  {
    assert FindById(store, store[k].id) == Some(k);
  }

  // ---------------------------------------------------------------------
  // Money reports

  /** `sub.amountPaid || 0`. */
  function Paid(s: Subscription): int {
    s.amountPaid.GetOr(0)
  }

  /** `(sub.price || 0) - (sub.amountPaid || 0)`: not clamped, so an
      overpaid subscription counts negatively. */
  function Pending(s: Subscription): int {
    s.price.GetOr(0) - Paid(s)
  }

  /** `subs.reduce((sum, sub) => sum + (sub.amountPaid || 0), 0)`. */
  function TotalPaid(subs: seq<Subscription>): int {
    if |subs| == 0 then 0 else TotalPaid(subs[..|subs| - 1]) + Paid(subs[|subs| - 1])
  }

  /** The `totalPending` reduction. */
  function TotalPending(subs: seq<Subscription>): int {
    if |subs| == 0 then 0 else TotalPending(subs[..|subs| - 1]) + Pending(subs[|subs| - 1])
  }

  /** The sum of the prices, a missing price counting 0. */
  function TotalPrice(subs: seq<Subscription>): int {
    if |subs| == 0 then 0 else TotalPrice(subs[..|subs| - 1]) + subs[|subs| - 1].price.GetOr(0)
  }

  /** What is paid and what is pending add up to the prices. */
  lemma {:induction false} PaidPlusPending(subs: seq<Subscription>)
    ensures TotalPaid(subs) + TotalPending(subs) == TotalPrice(subs)
  {
    if |subs| > 0 {
      PaidPlusPending(subs[..|subs| - 1]);
    }
  }

  /** The documents of the collection, in store order. */
  function Docs(store: SubStore): (subs: seq<Subscription>)
    ensures |subs| == |store| && forall k :: 0 <= k < |store| ==> subs[k] == store[k].doc
  {
    seq(|store|, k requires 0 <= k < |store| => store[k].doc)
  }

  /** The query `{ startDate: { $lte: to }, endDate: { $gte: from } }`: the
      subscription's period meets the window. A missing date matches nothing. */
  predicate Overlaps(s: Subscription, from: int, to: int) {
    s.startDate.Some? && s.endDate.Some? && s.startDate.value <= to && s.endDate.value >= from
  }

  /** The window condition as a test. */
  function OverlapTest(from: int, to: int): Subscription -> bool {
    s => Overlaps(s, from, to)
  }

  /** The subscriptions meeting the window, in store order: each one that
      meets it, as often as it is stored, and no other. */
  function SelectOverlapping(subs: seq<Subscription>, from: int, to: int): (r: seq<Subscription>)
    ensures |r| <= |subs|
    ensures forall k :: 0 <= k < |r| ==> Overlaps(r[k], from, to)
    ensures forall x :: x in r <==> x in subs && Overlaps(x, from, to)
    ensures forall x :: multiset(r)[x] == if Overlaps(x, from, to) then multiset(subs)[x] else 0
  {
    FilterMembers(subs, OverlapTest(from, to));
    FilterMultiset(subs, OverlapTest(from, to));
    Filter(subs, OverlapTest(from, to))
  }

  /** The selection keeps the store order: selecting from a concatenation
      concatenates the selections, and a single subscription is kept exactly
      when it meets the window. */
  lemma SelectOverlappingInOrder(a: seq<Subscription>, b: seq<Subscription>, from: int, to: int)
    ensures SelectOverlapping(a + b, from, to) == SelectOverlapping(a, from, to) + SelectOverlapping(b, from, to)
    ensures |b| == 1 ==> SelectOverlapping(b, from, to) == if Overlaps(b[0], from, to) then b else []
  {
    FilterAppend(a, b, OverlapTest(from, to));
    if |b| == 1 {
      assert b[..0] == [];
    }
  }

  /** The answer of GET /payments. */
  datatype PaymentsReport = PaymentsReport(subscriptions: seq<Subscription>, totalPaid: int, totalPending: int)

  /** GET /payments: the window runs from `from` (1970-01-01, the instant 0,
      when missing) to `to` (now when missing); a parameter given as an empty
      string counts as missing. */
  function Payments(store: SubStore, from: Option<int>, to: Option<int>, now: int): (r: PaymentsReport)
    ensures forall k :: 0 <= k < |r.subscriptions| ==> Overlaps(r.subscriptions[k], from.GetOr(0), to.GetOr(now))
    ensures forall k :: 0 <= k < |store| && Overlaps(store[k].doc, from.GetOr(0), to.GetOr(now)) ==> store[k].doc in r.subscriptions
    ensures forall x :: multiset(r.subscriptions)[x] == if Overlaps(x, from.GetOr(0), to.GetOr(now)) then multiset(Docs(store))[x] else 0
    ensures r.totalPaid == TotalPaid(r.subscriptions) && r.totalPending == TotalPending(r.subscriptions)
  {
    var subs := SelectOverlapping(Docs(store), from.GetOr(0), to.GetOr(now));
    PaymentsReport(subs, TotalPaid(subs), TotalPending(subs))
  }

  /** The report's two totals add up to the prices of the selected subscriptions. */
  lemma PaymentsTotalsAddUp(store: SubStore, from: Option<int>, to: Option<int>, now: int)
    ensures var r := Payments(store, from, to, now);
      r.totalPaid + r.totalPending == TotalPrice(r.subscriptions)
  {
    PaidPlusPending(Payments(store, from, to, now).subscriptions);
  }

  // ---------------------------------------------------------------------
  // Monthly report

  const MonthNames: seq<string> := ["Jan", "Feb", "Mar", "Apr", "May", "Jun", "Jul", "Aug", "Sep", "Oct", "Nov", "Dec"]

  /** A month as `getMonth()` gives it: 0 for January to 11 for December. */
  type MonthIndex = m: int | 0 <= m < 12

  datatype MonthRow = MonthRow(month: string, totalPaid: int, totalPending: int)

  /** `parseInt(req.query.year) || currentYear`, with no radix: a year that
      parses to a number other than 0 is used, read in hexadecimal after a
      "0x"; a missing one, one without leading digits or one that parses to 0
      gives the current year. */
  function ReportYear(query: Option<string>, currentYear: int): (y: int)
    ensures query.None? ==> y == currentYear
    ensures y == currentYear || (query.Some? && ParseIntNoRadix(query.value) == Finite(y) && y != 0)
    ensures query.Some? && ParseIntNoRadix(query.value).Finite? && ParseIntNoRadix(query.value).value != 0 ==> y == ParseIntNoRadix(query.value).value
  {
    if query.None? then currentYear
    else match ParseIntNoRadix(query.value)
      case NaN => currentYear
      case Finite(v) => if v == 0 then currentYear else v
  }

  /** A year written in decimal digits is that year; "0x7E8" is read as
      hexadecimal and asks for 2024. */
  lemma ReportYearReadsDigitsAndHex(s: string, currentYear: int)
    requires |s| > 0 && AllDigits(s) && DigitsValue(s) != 0
    ensures ReportYear(Some(s), currentYear) == DigitsValue(s)
    ensures ReportYear(Some("0x7E8"), currentYear) == 2024
  {
    ParseIntNoRadixOfDigits(s);
    HexYear();
  }

  /** The twelve rows the report starts from, all at 0. */
  function InitialRows(): (rows: seq<MonthRow>)
    ensures |rows| == 12
    ensures forall m :: 0 <= m < 12 ==> rows[m] == MonthRow(MonthNames[m], 0, 0)
  {
    seq(12, m requires 0 <= m < 12 => MonthRow(MonthNames[m], 0, 0))
  }

  /** The query of the monthly report: the start lies in the UTC window of
      `year`. */
  predicate StartsIn(s: Subscription, year: int) {
    s.startDate.Some? && InYear(s.startDate.value, year)
  }

  function StartTest(year: int): Subscription -> bool {
    s => StartsIn(s, year)
  }

  /** The subscriptions starting in `year`, in store order: each one that
      does, as often as it is stored, and no other. */
  function StartingIn(subs: seq<Subscription>, year: int): (r: seq<Subscription>)
    ensures |r| <= |subs|
    ensures forall k :: 0 <= k < |r| ==> StartsIn(r[k], year)
    ensures forall x :: x in r <==> x in subs && StartsIn(x, year)
    ensures forall x :: multiset(r)[x] == if StartsIn(x, year) then multiset(subs)[x] else 0
  {
    FilterMembers(subs, StartTest(year));
    FilterMultiset(subs, StartTest(year));
    Filter(subs, StartTest(year))
  }

  /** Selecting the year keeps the store order. */
  lemma StartingInInOrder(a: seq<Subscription>, b: seq<Subscription>, year: int)
    ensures StartingIn(a + b, year) == StartingIn(a, year) + StartingIn(b, year)
    ensures |b| == 1 ==> StartingIn(b, year) == if StartsIn(b[0], year) then b else []
  {
    FilterAppend(a, b, StartTest(year));
    if |b| == 1 {
      assert b[..0] == [];
    }
  }

  /** The month a selected subscription is counted in: the local month of
      its start. */
  function MonthOf(s: Subscription, localMonth: int -> MonthIndex): MonthIndex {
    localMonth(s.startDate.GetOr(0))
  }

  /** One step of the `forEach`: the subscription's paid and pending amounts
      added to its month's row. */
  function AddToMonth(rows: seq<MonthRow>, s: Subscription, localMonth: int -> MonthIndex): (r: seq<MonthRow>)
    requires |rows| == 12
    ensures |r| == 12
    ensures forall m :: 0 <= m < 12 ==> r[m].month == rows[m].month
  {
    var m := MonthOf(s, localMonth);
    rows[m := MonthRow(rows[m].month, rows[m].totalPaid + Paid(s), rows[m].totalPending + Pending(s))]
  }

  /** The whole `forEach`, in the order of `subs`. */
  function Accumulate(rows: seq<MonthRow>, subs: seq<Subscription>, localMonth: int -> MonthIndex): (r: seq<MonthRow>)
    requires |rows| == 12
    ensures |r| == 12
    ensures forall m :: 0 <= m < 12 ==> r[m].month == rows[m].month
  {
    if |subs| == 0 then rows
    else AddToMonth(Accumulate(rows, subs[..|subs| - 1], localMonth), subs[|subs| - 1], localMonth)
  }

  /** GET /payments/monthly: twelve rows, January to December, holding the
      paid and pending amounts of the subscriptions starting in the year. */
  function Monthly(store: SubStore, query: Option<string>, currentYear: int, localMonth: int -> MonthIndex): (rows: seq<MonthRow>)
    ensures |rows| == 12
    ensures forall m :: 0 <= m < 12 ==> rows[m].month == MonthNames[m]
  {
    Accumulate(InitialRows(), StartingIn(Docs(store), ReportYear(query, currentYear)), localMonth)
  }

  function MonthTest(m: MonthIndex, localMonth: int -> MonthIndex): Subscription -> bool {
    s => MonthOf(s, localMonth) == m
  }

  /** The subscriptions counted in month `m`, in order. */
  function InMonth(subs: seq<Subscription>, m: MonthIndex, localMonth: int -> MonthIndex): seq<Subscription> {
    Filter(subs, MonthTest(m, localMonth))
  }

  lemma TotalsAppend(subs: seq<Subscription>, s: Subscription)
    ensures TotalPaid(subs + [s]) == TotalPaid(subs) + Paid(s)
    ensures TotalPending(subs + [s]) == TotalPending(subs) + Pending(s)
  {
    assert (subs + [s])[..|subs|] == subs;
  }

  /** The month's selection grows by the last subscription exactly when it
      belongs to the month. */
  lemma InMonthStep(subs: seq<Subscription>, m: MonthIndex, localMonth: int -> MonthIndex)
    requires |subs| > 0
    ensures InMonth(subs, m, localMonth) == InMonth(subs[..|subs| - 1], m, localMonth)
      + (if MonthOf(subs[|subs| - 1], localMonth) == m then [subs[|subs| - 1]] else [])
  {
    var p := MonthTest(m, localMonth);
    assert Filter(subs, p) == Filter(subs[..|subs| - 1], p) + (if p(subs[|subs| - 1]) then [subs[|subs| - 1]] else []);
  }

  /** Each row holds the totals of exactly the subscriptions of its month. */
  lemma {:induction false} RowIsMonthTotal(subs: seq<Subscription>, m: MonthIndex, localMonth: int -> MonthIndex)
    ensures Accumulate(InitialRows(), subs, localMonth)[m].totalPaid == TotalPaid(InMonth(subs, m, localMonth))
    ensures Accumulate(InitialRows(), subs, localMonth)[m].totalPending == TotalPending(InMonth(subs, m, localMonth))
  {
    if |subs| > 0 {
      var front := subs[..|subs| - 1];
      var last := subs[|subs| - 1];
      RowIsMonthTotal(front, m, localMonth);
      InMonthStep(subs, m, localMonth);
      var rows := Accumulate(InitialRows(), front, localMonth);
      assert Accumulate(InitialRows(), subs, localMonth) == AddToMonth(rows, last, localMonth);
      if MonthOf(last, localMonth) == m {
        assert InMonth(subs, m, localMonth) == InMonth(front, m, localMonth) + [last];
        TotalsAppend(InMonth(front, m, localMonth), last);
        assert AddToMonth(rows, last, localMonth)[m]
          == MonthRow(rows[m].month, rows[m].totalPaid + Paid(last), rows[m].totalPending + Pending(last));
      } else {
        assert InMonth(subs, m, localMonth) == InMonth(front, m, localMonth);
        assert AddToMonth(rows, last, localMonth)[m] == rows[m];
      }
    }
  }

  /** The sum of the first `n` rows' paid amounts. */
  function SumPaid(rows: seq<MonthRow>, n: nat): int
    requires n <= |rows|
  {
    if n == 0 then 0 else SumPaid(rows, n - 1) + rows[n - 1].totalPaid
  }

  /** The sum of the first `n` rows' pending amounts. */
  function SumPending(rows: seq<MonthRow>, n: nat): int
    requires n <= |rows|
  {
    if n == 0 then 0 else SumPending(rows, n - 1) + rows[n - 1].totalPending
  }

  /** Raising one row raises the sums over the rows including it by as much. */
  lemma {:induction false} SumsOfRaisedRow(rows: seq<MonthRow>, m: nat, r: MonthRow, n: nat)
    requires m < |rows| && n <= |rows|
    ensures SumPaid(rows[m := r], n) == SumPaid(rows, n) + (if m < n then r.totalPaid - rows[m].totalPaid else 0)
    ensures SumPending(rows[m := r], n) == SumPending(rows, n) + (if m < n then r.totalPending - rows[m].totalPending else 0)
  {
    if n > 0 {
      SumsOfRaisedRow(rows, m, r, n - 1);
    }
  }

  /** The rows together hold the totals of all the subscriptions counted. */
  lemma {:induction false} RowsAddUpToTotals(subs: seq<Subscription>, localMonth: int -> MonthIndex)
    ensures SumPaid(Accumulate(InitialRows(), subs, localMonth), 12) == TotalPaid(subs)
    ensures SumPending(Accumulate(InitialRows(), subs, localMonth), 12) == TotalPending(subs)
  {
    if |subs| == 0 {
      var rows := InitialRows();
      assert SumPaid(rows, 12) == 0 && SumPending(rows, 12) == 0 by {
        ZeroRowsSum(rows, 12);
      }
    } else {
      var front := subs[..|subs| - 1];
      var last := subs[|subs| - 1];
      RowsAddUpToTotals(front, localMonth);
      var rows := Accumulate(InitialRows(), front, localMonth);
      var m := MonthOf(last, localMonth);
      SumsOfRaisedRow(rows, m, MonthRow(rows[m].month, rows[m].totalPaid + Paid(last), rows[m].totalPending + Pending(last)), 12);
    }
  }

  lemma {:induction false} ZeroRowsSum(rows: seq<MonthRow>, n: nat)
    requires n <= |rows|
    requires forall m :: 0 <= m < |rows| ==> rows[m].totalPaid == 0 && rows[m].totalPending == 0
    ensures SumPaid(rows, n) == 0 && SumPending(rows, n) == 0
  {
    if n > 0 {
      ZeroRowsSum(rows, n - 1);
    }
  }

  /** The monthly report, row by row and in all: each row totals the
      subscriptions of the year starting in its month, and the rows add up
      to the year's totals. */
  lemma MonthlyTotals(store: SubStore, query: Option<string>, currentYear: int, localMonth: int -> MonthIndex, m: MonthIndex)
    ensures var year := StartingIn(Docs(store), ReportYear(query, currentYear));
      var rows := Monthly(store, query, currentYear, localMonth);
      && rows[m].totalPaid == TotalPaid(InMonth(year, m, localMonth))
      && rows[m].totalPending == TotalPending(InMonth(year, m, localMonth))
      && SumPaid(rows, 12) == TotalPaid(year)
      && SumPending(rows, 12) == TotalPending(year)
  {
    var year := StartingIn(Docs(store), ReportYear(query, currentYear));
    RowIsMonthTotal(year, m, localMonth);
    RowsAddUpToTotals(year, localMonth);
  }
}
