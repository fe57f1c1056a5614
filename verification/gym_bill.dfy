/** The gym-bill document (models/GymBill.js): a member's profile, the current
    bill, a status restricted to two values, and three embedded histories.
    Paths holding strings and numbers are grouped in two maps keyed by the
    schema's path names; a path absent from a map is unset in the document.
    Dates are milliseconds since the epoch. */
module GymBill {
  import opened Wrappers

  /** The `status` path: the schema's enum has exactly these two values. */
  datatype Status = Active | Inactive

  /** The value of `status` when a document is created without one. */
  const DefaultStatus := Active

  /** The string stored for a status. */
  function StatusName(s: Status): string {
    match s
    case Active => "Active"
    case Inactive => "Inactive"
  }

  /** The schema's enum validator: the status a string names, if any. */
  function ParseStatus(s: string): (r: Option<Status>)
    ensures r.Some? <==> s == "Active" || s == "Inactive"
    ensures r.Some? ==> StatusName(r.value) == s
  {
    if s == "Active" then Some(Active)
    else if s == "Inactive" then Some(Inactive)
    else None
  }

  /** Every status survives being written out and validated again. */
  lemma StatusRoundTrip(s: Status)
    ensures ParseStatus(StatusName(s)) == Some(s)
  {
  }

  /** The string paths of the schema. */
  datatype TextField =
    | Client | ContactNumber | AlternateContact | Email | ClientSource | Gender
    | DateOfBirth | Anniversary | Profession | TaxId | WorkoutHours | AreaAddress
    | Remarks | Package | JoiningDate | EndDate | InitialPaymentMode | FollowupDate
    | PaymentMethodDetail | AppointTrainer | ClientRep

  /** The number paths of the schema. */
  datatype NumberField =
    | Sessions | Price | DiscountAmount | AdmissionCharges | Tax | AmountPayable
    | AmountPaid | Balance | Amount

  /** An entry of a history array together with its own `date`, which the
      schema fills with the time of insertion when it is missing. */
  datatype Dated<E> = Dated(entry: E, date: Option<int>)

  /** A `paymentHistory` entry. */
  datatype Payment = Payment(amount: Option<int>, mode: Option<string>, note: Option<string>)

  /** A `renewalHistory` entry. */
  datatype Renewal = Renewal(
    joiningDate: Option<string>, endDate: Option<string>, package: Option<string>,
    price: Option<int>, admissionCharges: Option<int>, discountAmount: Option<int>,
    amountPaid: Option<int>, balance: Option<int>, remarks: Option<string>,
    trainer: Option<string>, modeOfPayment: Option<string>)

  /** A `balanceHistory` entry. */
  datatype BalanceChange = BalanceChange(
    previousBalance: Option<int>, newBalance: Option<int>, change: Option<int>, reason: Option<string>)

  /** A stored gym bill. `memberId` is a plain string path: the schema puts
      no uniqueness constraint on it. */
  datatype Bill = Bill(
    memberId: Option<string>,
    text: map<TextField, string>,
    numbers: map<NumberField, int>,
    status: Status,
    paymentHistory: seq<Dated<Payment>>,
    renewalHistory: seq<Dated<Renewal>>,
    balanceHistory: seq<Dated<BalanceChange>>)

  /** A document as the schema builds it before any value is given: the
      status and discount defaults and empty histories. */
  function NewBill(): (b: Bill)
    ensures b.status == Active
    ensures b.numbers == map[DiscountAmount := 0]
    ensures b.memberId.None? && b.text == map[]
    ensures b.paymentHistory == [] && b.renewalHistory == [] && b.balanceHistory == []
  {
    Bill(None, map[], map[DiscountAmount := 0], DefaultStatus, [], [], [])
  }

  /** Gives every entry without a date the date `now`. */
  function StampDates<E>(es: seq<Dated<E>>, now: int): (r: seq<Dated<E>>)
    ensures |r| == |es|
    ensures forall i :: 0 <= i < |es| ==> r[i].entry == es[i].entry && r[i].date.Some?
    ensures forall i :: 0 <= i < |es| ==> r[i].date == if es[i].date.Some? then es[i].date else Some(now)
  {
    seq(|es|, i requires 0 <= i < |es| => if es[i].date.Some? then es[i] else Dated(es[i].entry, Some(now)))
  }

  /** Every history entry carries a date. */
  predicate AllDated(b: Bill) {
    && (forall i :: 0 <= i < |b.paymentHistory| ==> b.paymentHistory[i].date.Some?)
    && (forall i :: 0 <= i < |b.renewalHistory| ==> b.renewalHistory[i].date.Some?)
    && (forall i :: 0 <= i < |b.balanceHistory| ==> b.balanceHistory[i].date.Some?)
  }

  /** The schema paths a request body carries, as JSON after casting, and the
      names of the keys the schema does not know (strict mode drops them; they
      only count towards the body being non-empty). The status is kept raw: the
      routes sanitise it before it reaches the document. */
  datatype BillBody = BillBody(
    memberId: Option<string>,
    status: Option<string>,
    text: map<TextField, string>,
    numbers: map<NumberField, int>,
    paymentHistory: Option<seq<Dated<Payment>>>,
    renewalHistory: Option<seq<Dated<Renewal>>>,
    balanceHistory: Option<seq<Dated<BalanceChange>>>,
    otherKeys: set<string>)

  /** `Object.keys(body).length === 0`. */
  predicate IsEmptyBody(body: BillBody) {
    && body.memberId.None? && body.status.None?
    && body.text == map[] && body.numbers == map[]
    && body.paymentHistory.None? && body.renewalHistory.None? && body.balanceHistory.None?
    && body.otherKeys == {}
  }

  /** Writes every path the body carries into the document, as `new
      GymBill({...body})` over the defaults and as the `$set` of
      `findByIdAndUpdate` do: a given path replaces the stored value, an
      absent one leaves it, and history arrays are replaced whole with their
      missing dates filled in. The status is left to the caller. */
  function Overlay(b: Bill, body: BillBody, now: int): (r: Bill)
    ensures r.memberId == if body.memberId.Some? then body.memberId else b.memberId
    ensures r.status == b.status
    ensures r.text.Keys == b.text.Keys + body.text.Keys
    ensures forall f :: f in body.text ==> r.text[f] == body.text[f]
    ensures forall f :: f in b.text && f !in body.text ==> r.text[f] == b.text[f]
    ensures r.numbers.Keys == b.numbers.Keys + body.numbers.Keys
    ensures forall f :: f in body.numbers ==> r.numbers[f] == body.numbers[f]
    ensures forall f :: f in b.numbers && f !in body.numbers ==> r.numbers[f] == b.numbers[f]
    ensures body.paymentHistory.None? ==> r.paymentHistory == b.paymentHistory
    ensures body.renewalHistory.None? ==> r.renewalHistory == b.renewalHistory
    ensures body.balanceHistory.None? ==> r.balanceHistory == b.balanceHistory
    ensures body.paymentHistory.Some? ==> r.paymentHistory == StampDates(body.paymentHistory.value, now)
    ensures body.renewalHistory.Some? ==> r.renewalHistory == StampDates(body.renewalHistory.value, now)
    ensures body.balanceHistory.Some? ==> r.balanceHistory == StampDates(body.balanceHistory.value, now)
    ensures AllDated(b) ==> AllDated(r)
  {
    Bill(
      if body.memberId.Some? then body.memberId else b.memberId,
      b.text + body.text,
      b.numbers + body.numbers,
      b.status,
      if body.paymentHistory.Some? then StampDates(body.paymentHistory.value, now) else b.paymentHistory,
      if body.renewalHistory.Some? then StampDates(body.renewalHistory.value, now) else b.renewalHistory,
      if body.balanceHistory.Some? then StampDates(body.balanceHistory.value, now) else b.balanceHistory)
  }
}
