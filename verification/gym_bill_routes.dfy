/** The gym-bill routes (routes/gymBillRoutes.js) as transformations of the
    bill collection: create (POST /), update (PUT /:id) and renew
    (PUT /renew/:id). The collection is a sequence of documents with distinct
    `_id`s in insertion order; the new document's `_id` and the current time
    are parameters. */
module GymBillRoutes {
  import opened Wrappers
  import opened Collections
  import opened Text
  import opened MemberIds
  import opened GymBill

  type StoredBill = Stored<Bill>

  type Store = seq<StoredBill>

  /** The answer of a route: 400 "No data provided", 201 with the new member
      id, or 200 with the updated document or `null`. */
  datatype Reply = NoData | Created(memberId: string, data: Bill) | Json(found: Option<Bill>)

  function StatusCode(r: Reply): int {
    match r
    case NoData => 400
    case Created(_, _) => 201
    case Json(_) => 200
  }

  /** The `memberId` path of every stored bill, in store order. */
  function MemberIdsOf(store: Store): (ids: seq<Option<string>>)
    ensures |ids| == |store|
    ensures forall k :: 0 <= k < |store| ==> ids[k] == store[k].doc.memberId
  {
    seq(|store|, k requires 0 <= k < |store| => store[k].doc.memberId)
  }

  /** The status create stores: the trimmed input when it names a status,
      "Active" otherwise (also when the input is missing or blank). */
  function CreateStatus(raw: Option<string>): (s: Status)
    ensures s == Inactive <==> raw.Some? && Trim(raw.value) == "Inactive"
    ensures raw.Some? && ParseStatus(Trim(raw.value)).Some? ==> StatusName(s) == Trim(raw.value)
  {
    var trimmed := if raw.Some? then Trim(raw.value) else "";
    if trimmed == "" then Active
    else match ParseStatus(trimmed)
      case Some(s) => s
      case None => Active
  }

  /** The status update stores: the input as it is when it names a status,
      "Active" otherwise. Unlike create it does not trim. */
  function UpdateStatus(raw: Option<string>): (s: Status)
    ensures s == Inactive <==> raw == Some("Inactive")
    ensures raw.Some? && ParseStatus(raw.value).Some? ==> StatusName(s) == raw.value
  {
    if raw.None? || raw.value == "" then Active
    else match ParseStatus(raw.value)
      case Some(s) => s
      case None => Active
  }

  /** Sanitising an already sanitised status changes nothing, for both routes. */
  lemma SanitisingIsIdempotent(raw: Option<string>)
    ensures UpdateStatus(Some(StatusName(UpdateStatus(raw)))) == UpdateStatus(raw)
    ensures CreateStatus(Some(StatusName(CreateStatus(raw)))) == CreateStatus(raw)
  {
    TrimKeeps("Active");
    TrimKeeps("Inactive");
  }

  /** POST /: rejects an empty body with 400 and stores nothing; otherwise
      stores one new document, appended under the new `_id`, whose memberId is
      the one allocated under "MEM" (whatever memberId the body carries), whose
      status is the sanitised one, and whose other paths are the body's over
      the schema defaults. */
  function CreateBill(store: Store, body: BillBody, newId: string, now: int): (res: (Reply, Store))
    requires forall k :: 0 <= k < |store| ==> store[k].id != newId
    ensures res.0 == NoData <==> IsEmptyBody(body)
    ensures res.0 == NoData ==> res.1 == store
    ensures res.0 != NoData ==>
      && res.0.Created?
      && res.0.memberId == NextSequentialId(CreatePrefix, MemberIdsOf(store))
      && res.0.data.memberId == Some(res.0.memberId)
      && res.1 == store + [Stored(newId, res.0.data)]
  {
    if IsEmptyBody(body) then (NoData, store)
    else
      var memberId := NextSequentialId(CreatePrefix, MemberIdsOf(store));
      var bill := NewDocument(body, memberId, now);
      (Created(memberId, bill), store + [Stored(newId, bill)])
  }

  /** `new GymBill({...body, memberId, status})`: the given memberId, the
      sanitised status, the body's strings and numbers, a discount of 0 unless
      the body gives one, the body's histories (missing dates filled in with
      `now`) or empty ones. */
  function NewDocument(body: BillBody, memberId: string, now: int): (b: Bill)
    ensures b.memberId == Some(memberId)
    ensures b.status == Inactive <==> body.status.Some? && Trim(body.status.value) == "Inactive"
    ensures b.text == body.text
    ensures b.numbers.Keys == body.numbers.Keys + {DiscountAmount}
    ensures forall f :: f in body.numbers ==> b.numbers[f] == body.numbers[f]
    ensures DiscountAmount !in body.numbers ==> b.numbers[DiscountAmount] == 0
    ensures body.paymentHistory.None? ==> b.paymentHistory == []
    ensures body.renewalHistory.None? ==> b.renewalHistory == []
    ensures body.balanceHistory.None? ==> b.balanceHistory == []
    ensures body.paymentHistory.Some? ==> b.paymentHistory == StampDates(body.paymentHistory.value, now)
    ensures body.renewalHistory.Some? ==> b.renewalHistory == StampDates(body.renewalHistory.value, now)
    ensures body.balanceHistory.Some? ==> b.balanceHistory == StampDates(body.balanceHistory.value, now)
    ensures AllDated(b)
  {
    var o := Overlay(NewBill(), body, now);
    assert o.text.Keys == body.text.Keys;
    o.(memberId := Some(memberId), status := CreateStatus(body.status))
  }

  /** The document create stores, path by path: the generated memberId, the
      sanitised status, the body's strings and numbers, a discount of 0 unless
      the body gives one, the body's histories or empty ones, all dated. */
  lemma CreatedDocument(store: Store, body: BillBody, newId: string, now: int)
    requires forall k :: 0 <= k < |store| ==> store[k].id != newId
    requires !IsEmptyBody(body)
    ensures var b := CreateBill(store, body, newId, now).0.data;
      && b.memberId == Some(NextSequentialId(CreatePrefix, MemberIdsOf(store)))
      && (b.status == Inactive <==> body.status.Some? && Trim(body.status.value) == "Inactive")
      && b.text == body.text
      && b.numbers.Keys == body.numbers.Keys + {DiscountAmount}
      && (forall f :: f in body.numbers ==> b.numbers[f] == body.numbers[f])
      && (DiscountAmount !in body.numbers ==> b.numbers[DiscountAmount] == 0)
      && (body.paymentHistory.None? ==> b.paymentHistory == [])
      && (body.renewalHistory.None? ==> b.renewalHistory == [])
      && (body.balanceHistory.None? ==> b.balanceHistory == [])
      && (body.paymentHistory.Some? ==> b.paymentHistory == StampDates(body.paymentHistory.value, now))
      && (body.renewalHistory.Some? ==> b.renewalHistory == StampDates(body.renewalHistory.value, now))
      && (body.balanceHistory.Some? ==> b.balanceHistory == StampDates(body.balanceHistory.value, now))
      && AllDated(b)
  {
    assert CreateBill(store, body, newId, now).0.data == NewDocument(body, NextSequentialId(CreatePrefix, MemberIdsOf(store)), now);
  }

  /** The generated memberId differs from the memberId of every stored bill,
      so creating keeps memberIds distinct when they were. */
  lemma CreateKeepsMemberIdsDistinct(store: Store, body: BillBody, newId: string, now: int)
    requires forall k :: 0 <= k < |store| ==> store[k].id != newId
    requires forall j, k :: 0 <= j < k < |store| && store[j].doc.memberId.Some? ==> store[j].doc.memberId != store[k].doc.memberId
    ensures var s := CreateBill(store, body, newId, now).1;
      forall j, k :: 0 <= j < k < |s| && s[j].doc.memberId.Some? ==> s[j].doc.memberId != s[k].doc.memberId
  {
    var s := CreateBill(store, body, newId, now).1;
    if !IsEmptyBody(body) {
      var ids := MemberIdsOf(store);
      forall j | 0 <= j < |store| ensures store[j].doc.memberId != s[|store|].doc.memberId {
        assert ids[j] == store[j].doc.memberId;
      }
    }
  }

  /** Creating keeps the `_id`s distinct. */
  lemma CreateKeepsIdsDistinct(store: Store, body: BillBody, newId: string, now: int)
    requires forall k :: 0 <= k < |store| ==> store[k].id != newId
    requires DistinctIds(store)
    ensures DistinctIds(CreateBill(store, body, newId, now).1)
  {
  }

  /** PUT /:id: the body's paths replace the stored ones, the status is
      sanitised (a body without a status makes the member "Active"), and the
      other documents are untouched; an unknown id answers `null` and changes
      nothing. */
  function UpdateBill(store: Store, id: string, body: BillBody, now: int): (res: (Reply, Store))
    ensures res.0.Json?
    ensures res.0.found.None? <==> forall k :: 0 <= k < |store| ==> store[k].id != id
    ensures res.0.found.None? ==> res.1 == store
    ensures res.0.found.Some? ==>
      && |res.1| == |store|
      && (exists k :: 0 <= k < |store| && store[k].id == id && (forall j :: 0 <= j < k ==> store[j].id != id)
                      && res.1 == store[k := Stored(id, res.0.found.value)])
    ensures res.0.found.Some? ==> res.0.found.value.status == UpdateStatus(body.status)
  {
    match FindById(store, id)
    case None => (Json(None), store)
    case Some(k) =>
      var bill := Overlay(store[k].doc, body, now).(status := UpdateStatus(body.status));
      (Json(Some(bill)), store[k := Stored(id, bill)])
  }

  /** The document update writes, path by path: the body's memberId when it
      carries one, the body's strings and numbers over the stored ones, the
      stored histories unless the body replaces them, and a replaced history
      with its missing dates filled in. */
  lemma UpdatedDocument(store: Store, k: nat, body: BillBody, now: int)
    requires k < |store| && DistinctIds(store)
    ensures var b := store[k].doc;
      var r := UpdateBill(store, store[k].id, body, now).0.found.value;
      && r.memberId == (if body.memberId.Some? then body.memberId else b.memberId)
      && r.text.Keys == b.text.Keys + body.text.Keys
      && r.numbers.Keys == b.numbers.Keys + body.numbers.Keys
      && (forall f :: f in body.text ==> r.text[f] == body.text[f])
      && (forall f :: f in b.text && f !in body.text ==> r.text[f] == b.text[f])
      && (forall f :: f in body.numbers ==> r.numbers[f] == body.numbers[f])
      && (forall f :: f in b.numbers && f !in body.numbers ==> r.numbers[f] == b.numbers[f])
      && (body.paymentHistory.None? ==> r.paymentHistory == b.paymentHistory)
      && (body.renewalHistory.None? ==> r.renewalHistory == b.renewalHistory)
      && (body.balanceHistory.None? ==> r.balanceHistory == b.balanceHistory)
      && (body.paymentHistory.Some? ==> r.paymentHistory == StampDates(body.paymentHistory.value, now))
      && (body.renewalHistory.Some? ==> r.renewalHistory == StampDates(body.renewalHistory.value, now))
      && (body.balanceHistory.Some? ==> r.balanceHistory == StampDates(body.balanceHistory.value, now))
  {
    assert FindById(store, store[k].id) == Some(k);
  }

  /** An update whose body has no status reactivates an inactive member. */
  lemma UpdateWithoutStatusActivates(store: Store, id: string, body: BillBody, now: int)
    requires body.status.None?
    requires exists k :: 0 <= k < |store| && store[k].id == id
    ensures UpdateBill(store, id, body, now).0.found.value.status == Active
  {
  }

  /** Nothing in update protects memberId: a body carrying another bill's
      memberId leaves two bills with the same one. */
  lemma UpdateCanDuplicateMemberId()
    ensures var b := NewBill();
      var store := [Stored("a", b.(memberId := Some("MEM001"))), Stored("b", b.(memberId := Some("MEM002")))];
      var body := BillBody(Some("MEM001"), None, map[], map[], None, None, None, {});
      var s := UpdateBill(store, "b", body, 0).1;
      s[0].doc.memberId == s[1].doc.memberId == Some("MEM001")
  {
  }

  /** The fields of the renew body; an absent one is dropped from the update. */
  datatype RenewBody = RenewBody(
    joiningDate: Option<string>, endDate: Option<string>, package: Option<string>, amountPaid: Option<int>)

  function SetText(m: map<TextField, string>, f: TextField, v: Option<string>): map<TextField, string> {
    if v.Some? then m[f := v.value] else m
  }

  /** The renewed document: the joining date, end date, package and amount
      paid the body gives, the status "Active", and every other path as
      stored, including the four paths the body leaves out. */
  function Renewed(b: Bill, body: RenewBody): (r: Bill)
    ensures r.status == Active
    ensures body.joiningDate.Some? ==> JoiningDate in r.text && r.text[JoiningDate] == body.joiningDate.value
    ensures body.endDate.Some? ==> EndDate in r.text && r.text[EndDate] == body.endDate.value
    ensures body.package.Some? ==> Package in r.text && r.text[Package] == body.package.value
    ensures body.amountPaid.Some? ==> AmountPaid in r.numbers && r.numbers[AmountPaid] == body.amountPaid.value
    ensures body.joiningDate.None? ==> (JoiningDate in r.text <==> JoiningDate in b.text)
    ensures body.joiningDate.None? && JoiningDate in b.text ==> r.text[JoiningDate] == b.text[JoiningDate]
    ensures body.endDate.None? ==> (EndDate in r.text <==> EndDate in b.text)
    ensures body.endDate.None? && EndDate in b.text ==> r.text[EndDate] == b.text[EndDate]
    ensures body.package.None? ==> (Package in r.text <==> Package in b.text)
    ensures body.package.None? && Package in b.text ==> r.text[Package] == b.text[Package]
    ensures body.amountPaid.None? ==> r.numbers == b.numbers
    ensures forall f :: f in b.text && f !in {JoiningDate, EndDate, Package} ==> f in r.text && r.text[f] == b.text[f]
    ensures forall f :: f in r.text && f !in {JoiningDate, EndDate, Package} ==> f in b.text
    ensures forall f :: f in b.numbers && f != AmountPaid ==> f in r.numbers && r.numbers[f] == b.numbers[f]
    ensures forall f :: f in r.numbers && f != AmountPaid ==> f in b.numbers
    ensures r.memberId == b.memberId
    ensures r.paymentHistory == b.paymentHistory && r.renewalHistory == b.renewalHistory
    ensures r.balanceHistory == b.balanceHistory
  {
    var text := SetText(SetText(SetText(b.text, JoiningDate, body.joiningDate), EndDate, body.endDate), Package, body.package);
    var numbers := if body.amountPaid.Some? then b.numbers[AmountPaid := body.amountPaid.value] else b.numbers;
    b.(text := text, numbers := numbers, status := Active)
  }

  /** PUT /renew/:id: the found document is replaced by its renewed form and
      nothing else changes. An unknown id answers `null` and changes nothing. */
  function RenewBill(store: Store, id: string, body: RenewBody): (res: (Reply, Store))
    ensures res.0.Json?
    ensures res.0.found.None? <==> forall k :: 0 <= k < |store| ==> store[k].id != id
    ensures res.0.found.None? ==> res.1 == store
    ensures res.0.found.Some? ==>
      exists k :: 0 <= k < |store| && store[k].id == id && (forall j :: 0 <= j < k ==> store[j].id != id)
        && res.0.found.value == Renewed(store[k].doc, body)
        && res.1 == store[k := Stored(id, res.0.found.value)]
  {
    match FindById(store, id)
    case None => (Json(None), store)
    case Some(k) =>
      var renewed := Renewed(store[k].doc, body);
      (Json(Some(renewed)), store[k := Stored(id, renewed)])
  }

  /** What renew changes: exactly the four given paths and the status; a
      path the body leaves out keeps its stored value. */
  lemma RenewedDocument(store: Store, k: nat, body: RenewBody)
    requires k < |store| && DistinctIds(store)
    ensures var b := store[k].doc;
      var r := RenewBill(store, store[k].id, body).0.found.value;
      && r.status == Active
      && (body.joiningDate.Some? ==> r.text[JoiningDate] == body.joiningDate.value)
      && (body.endDate.Some? ==> r.text[EndDate] == body.endDate.value)
      && (body.package.Some? ==> r.text[Package] == body.package.value)
      && (body.amountPaid.Some? ==> r.numbers[AmountPaid] == body.amountPaid.value)
      && (body.joiningDate.None? ==> (JoiningDate in r.text <==> JoiningDate in b.text))
      && (body.joiningDate.None? && JoiningDate in b.text ==> r.text[JoiningDate] == b.text[JoiningDate])
      && (body.endDate.None? ==> (EndDate in r.text <==> EndDate in b.text))
      && (body.endDate.None? && EndDate in b.text ==> r.text[EndDate] == b.text[EndDate])
      && (body.package.None? ==> (Package in r.text <==> Package in b.text))
      && (body.package.None? && Package in b.text ==> r.text[Package] == b.text[Package])
      && (body.amountPaid.None? ==> r.numbers == b.numbers)
      && (forall f :: f in b.text && f !in {JoiningDate, EndDate, Package} ==> f in r.text && r.text[f] == b.text[f])
      && (forall f :: f in r.text && f !in {JoiningDate, EndDate, Package} ==> f in b.text)
      && (forall f :: f in b.numbers && f != AmountPaid ==> f in r.numbers && r.numbers[f] == b.numbers[f])
      && (forall f :: f in r.numbers && f != AmountPaid ==> f in b.numbers)
      && r.memberId == b.memberId
      && r.paymentHistory == b.paymentHistory
      && r.renewalHistory == b.renewalHistory
      && r.balanceHistory == b.balanceHistory
  {
    assert FindById(store, store[k].id) == Some(k);
  }
}
