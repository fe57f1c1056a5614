/** The subscription document (models/Subscription.js) and its `pre("save")`
    hook, which names every new subscription after its client and the number
    of subscriptions the client already has: "INV-", the client's `clientId`,
    "-", and that number plus one padded to two digits. The collection is a
    sequence of documents with distinct `_id`s; the clients are the map from a
    client's `_id` to its `clientId` path. */
module SubscriptionModel {
  import opened Wrappers
  import opened Text
  import opened Collections

  /** The trainer embedded in a subscription. */
  datatype TrainerSnapshot = TrainerSnapshot(
    id: string,
    name: Option<string>,
    specialization: Option<string>,
    contactNumber: Option<string>,
    email: Option<string>)

  /** A subscription document. `clientId` is the `_id` of a client; dates are
      milliseconds since the epoch; amounts are whole numbers. */
  datatype Subscription = Subscription(
    subscriptionId: Option<string>,
    clientId: Option<string>,
    trainer: Option<TrainerSnapshot>,
    packageType: Option<string>,
    packageName: Option<string>,
    startDate: Option<int>,
    endDate: Option<int>,
    price: Option<int>,
    amountPaid: Option<int>,
    paymentMode: Option<string>)

  type StoredSub = Stored<Subscription>

  type SubStore = seq<StoredSub>

  /** Client `_id` to the client's `clientId` path. */
  type ClientIds = map<string, Option<string>>

  const ValidationFailed := "Subscription validation failed"
  const ClientNotFound := "Client not found"
  const DuplicateKey := "E11000 duplicate key error"

  /** The schema validation that runs before the hook: every required path
      is given. */
  predicate Valid(s: Subscription) {
    && Given(s.clientId) && Given(s.packageType) && Given(s.packageName)
    && s.startDate.Some? && s.endDate.Some? && s.price.Some? && Given(s.paymentMode)
  }

  /** `new Subscription(fields)`: `amountPaid` is 0 unless given. */
  function WithDefaults(s: Subscription): (r: Subscription)
    ensures r.amountPaid == Some(s.amountPaid.GetOr(0))
    ensures r == s.(amountPaid := r.amountPaid)
  {
    s.(amountPaid := Some(s.amountPaid.GetOr(0)))
  }

  /** How a client's `clientId` path prints inside a template string. */
  function ClientText(clientId: Option<string>): string {
    if clientId.Some? then clientId.value else "undefined"
  }

  /** `String(count).padStart(2, "0")`: a single digit gets a leading "0". */
  function Pad2(n: nat): string {
    if n < 10 then ['0', DigitChar(n)] else NatToString(n)
  }

  /** The padded count is the count's decimal text padded to two characters
      with "0", all digits, and parses back to the count. */
  lemma Pad2Spec(n: nat)
    ensures Pad2(n) == PadStart(NatToString(n), 2, '0')
    ensures |Pad2(n)| >= 2 && AllDigits(Pad2(n))
    ensures ParseInt(Pad2(n)) == Finite(n)
  {
    var s := NatToString(n);
    if n < 10 {
      assert s == [DigitChar(n)];
      assert PadStart(s, 2, '0') == ['0'] + s;
    }
    ParseIntOfPadded(n, 2);
  }

  /** The invoice identifier of the `n`-th subscription of a client whose
      `clientId` prints as `client`. */
  function InvoiceId(client: string, n: nat): string {
    "INV-" + client + "-" + Pad2(n)
  }

  /** The number of stored subscriptions of the client with `_id` `cid`
      (`countDocuments({ clientId })`). */
  function CountFor(store: SubStore, cid: string): (c: nat)
    ensures c <= |store|
  {
    if |store| == 0 then 0
    else CountFor(store[..|store| - 1], cid) + (if store[|store| - 1].doc.clientId == Some(cid) then 1 else 0)
  }

  /** Whether some stored subscription already has the identifier. */
  predicate InvoiceTaken(store: SubStore, id: string) {
    exists k :: 0 <= k < |store| && store[k].doc.subscriptionId == Some(id)
  }

  /** Whether a stored subscription other than the one at position `k` has
      the identifier; the unique index refuses to give it to `k` as well. */
  predicate InvoiceHeldByOther(store: SubStore, k: nat, id: string) {
    exists j :: 0 <= j < |store| && j != k && store[j].doc.subscriptionId == Some(id)
  }

  /** The state the unique index on `subscriptionId` keeps: no identifier is
      held twice. */
  predicate InvoicesUnique(store: SubStore) {
    forall j, k :: 0 <= j < k < |store| && store[j].doc.subscriptionId.Some? ==>
      store[j].doc.subscriptionId != store[k].doc.subscriptionId
  }

  /** The hook. A document that is not new passes through unchanged. A new
      one fails with "Client not found" when its client does not exist, and
      otherwise gets the invoice identifier numbered one past its client's
      count. */
  function PreSave(store: SubStore, clients: ClientIds, s: Subscription, isNew: bool): (r: Result<Subscription>)
    ensures !isNew ==> r == Ok(s)
    ensures isNew && (s.clientId.None? || s.clientId.value !in clients) ==> r == Err(ClientNotFound)
    ensures isNew && s.clientId.Some? && s.clientId.value in clients ==>
      r == Ok(s.(subscriptionId := Some(InvoiceId(ClientText(clients[s.clientId.value]), CountFor(store, s.clientId.value) + 1))))
  {
    if !isNew then Ok(s)
    else if s.clientId.None? || s.clientId.value !in clients then Err(ClientNotFound)
    else
      var cid := s.clientId.value;
      var count := CountFor(store, cid) + 1;
      Ok(s.(subscriptionId := Some(InvoiceId(ClientText(clients[cid]), count))))
  }

  /** `save()` of a new subscription under the new `_id` `newId`:
      validation, then the hook, then the insert, which the unique index on
      `subscriptionId` refuses when the identifier is taken. */
  function SaveNew(store: SubStore, clients: ClientIds, s: Subscription, newId: string): (r: Result<(Subscription, SubStore)>)
    ensures !Valid(s) ==> r == Err(ValidationFailed)
    ensures Valid(s) && s.clientId.value !in clients ==> r == Err(ClientNotFound)
    ensures r.Ok? ==> r.value.1 == store + [Stored(newId, r.value.0)]
    ensures r.Ok? ==> var cid := s.clientId.value;
      r.value.0 == s.(subscriptionId := Some(InvoiceId(ClientText(clients[cid]), CountFor(store, cid) + 1)))
    ensures Valid(s) && s.clientId.value in clients ==>
      (r.Err? <==> InvoiceTaken(store, InvoiceId(ClientText(clients[s.clientId.value]), CountFor(store, s.clientId.value) + 1)))
  {
    if !Valid(s) then Err(ValidationFailed)
    else match PreSave(store, clients, s, true)
      case Err(e) => Err(e)
      case Ok(named) =>
        if InvoiceTaken(store, named.subscriptionId.value) then Err(DuplicateKey)
        else Ok((named, store + [Stored(newId, named)]))
  }

  /** `findByIdAndDelete`: the first document with `_id` `id` is removed and
      the others stay in order; with no such document nothing changes. */
  function Delete(store: SubStore, id: string): (r: SubStore)
    ensures (forall k :: 0 <= k < |store| ==> store[k].id != id) ==> r == store
    ensures (exists k :: 0 <= k < |store| && store[k].id == id) ==>
      exists k :: 0 <= k < |store| && store[k].id == id && (forall j :: 0 <= j < k ==> store[j].id != id)
        && r == store[..k] + store[k + 1..]
  {
    match FindById(store, id)
    case None => store
    case Some(k) => store[..k] + store[k + 1..]
  }

  /** With distinct `_id`s, deleting keeps exactly the other documents, each
      once and in order, and leaves the `_id`s distinct. */
  lemma DeleteKeepsOthers(store: SubStore, id: string)
    requires DistinctIds(store)
    ensures var r := Delete(store, id);
      && (forall k :: 0 <= k < |r| ==> r[k].id != id)
      && (forall x: StoredSub :: multiset(r)[x] == if x.id != id then multiset(store)[x] else 0)
      && DistinctIds(r)
  {
    match FindById(store, id)
    case None =>
      assert forall x: StoredSub :: x.id == id ==> x !in store;
    case Some(k) =>
      DeleteAt(store, k);
  }

  /** Removing the document at `k` from a collection with distinct `_id`s. */
  lemma DeleteAt(store: SubStore, k: nat)
    requires DistinctIds(store) && k < |store|
    ensures var r := store[..k] + store[k + 1..];
      && (forall j :: 0 <= j < |r| ==> r[j].id != store[k].id)
      && (forall x: StoredSub :: multiset(r)[x] == if x.id != store[k].id then multiset(store)[x] else 0)
      && DistinctIds(r)
  {
    var r := store[..k] + store[k + 1..];
    SpliceIndices(store, k);
    SpliceMultiset(store, k);
    assert forall x :: x in r ==> x.id != store[k].id;
  }

  /** A digit string after the last "-" determines the split: two strings
      `a + "-" + p` and `b + "-" + q` with all-digit `p` and `q` agree only
      when `a == b` and `p == q`. */
  lemma SplitAtLastDash(a: string, p: string, b: string, q: string)
    requires AllDigits(p) && AllDigits(q)
    requires a + "-" + p == b + "-" + q
    ensures a == b && p == q
  {
    var s := a + "-" + p;
    DashPosition(a, p);
    DashPosition(b, q);
    assert |p| == |q|;
    assert p == s[|s| - |p|..] == q;
    assert a == s[..|a|] == b;
  }

  /** In `a + "-" + p` with all-digit `p`, the last "-" stands right before `p`. */
  lemma DashPosition(a: string, p: string)
    requires AllDigits(p)
    ensures var s := a + "-" + p;
      && s[|s| - |p| - 1] == '-'
      && forall i :: |s| - |p| <= i < |s| ==> s[i] != '-'
  {
    var s := a + "-" + p;
    forall i | |s| - |p| <= i < |s| ensures s[i] != '-' {
      assert s[i] == p[i - (|s| - |p|)];
    }
  }

  /** Invoice identifiers differ for different clients' texts or different
      numbers: the client text and the number can be read back. */
  lemma InvoiceIdInjective(c1: string, n1: nat, c2: string, n2: nat)
    requires InvoiceId(c1, n1) == InvoiceId(c2, n2)
    ensures c1 == c2 && n1 == n2
  {
    assert ("INV-" + c1) + "-" + Pad2(n1) == ("INV-" + c2) + "-" + Pad2(n2);
    Pad2Spec(n1);
    Pad2Spec(n2);
    SplitAtLastDash("INV-" + c1, Pad2(n1), "INV-" + c2, Pad2(n2));
    assert c1 == ("INV-" + c1)[4..];
    assert c2 == ("INV-" + c2)[4..];
  }

  /** A client's first subscription ends in "-01"; the hundredth and later
      ones show all their digits. */
  lemma InvoiceIdShapes(client: string)
    ensures InvoiceId(client, 1) == "INV-" + client + "-01"
    ensures InvoiceId(client, 100) == "INV-" + client + "-100"
  {
    assert NatToString(1) == "1";
    assert NatToString(100) == NatToString(10) + ['0'];
    assert NatToString(10) == NatToString(1) + ['0'];
  }

  /** Adding a document raises the count of its own client by one and leaves
      the other counts alone. */
  lemma CountAppend(store: SubStore, x: StoredSub, cid: string)
    ensures CountFor(store + [x], cid) == CountFor(store, cid) + (if x.doc.clientId == Some(cid) then 1 else 0)
  {
    assert (store + [x])[..|store|] == store;
  }

  /** Distinct clients print differently. */
  predicate DistinctClientTexts(clients: ClientIds) {
    forall a, b :: a in clients && b in clients && a != b ==> ClientText(clients[a]) != ClientText(clients[b])
  }

  /** The state the hook maintains while nothing is deleted: every stored
      subscription belongs to a known client and is numbered within its
      client's count. */
  predicate Numbered(store: SubStore, clients: ClientIds) {
    forall k :: 0 <= k < |store| ==> NumberedIn(store, clients, store[k].doc)
  }

  /** `x` belongs to a known client and carries one of that client's
      invoice identifiers up to the client's count in `store`. */
  predicate NumberedIn(store: SubStore, clients: ClientIds, x: Subscription) {
    && x.clientId.Some?
    && x.clientId.value in clients
    && exists j: nat :: 1 <= j <= CountFor(store, x.clientId.value)
                    && x.subscriptionId == Some(InvoiceId(ClientText(clients[x.clientId.value]), j))
  }

  /** In a numbered collection the identifier the hook computes is free, so
      a valid subscription of a known client is always stored. */
  lemma {:induction false} NextInvoiceIsFree(store: SubStore, clients: ClientIds, s: Subscription, newId: string)
    requires Numbered(store, clients) && DistinctClientTexts(clients)
    requires Valid(s) && s.clientId.value in clients
    ensures SaveNew(store, clients, s, newId).Ok?
  {
    NextInvoiceUntaken(store, clients, s.clientId.value);
  }

  /** No stored subscription of a numbered collection carries the identifier
      the hook computes next for a known client. */
  lemma NextInvoiceUntaken(store: SubStore, clients: ClientIds, cid: string)
    requires Numbered(store, clients) && DistinctClientTexts(clients) && cid in clients
    ensures !InvoiceTaken(store, InvoiceId(ClientText(clients[cid]), CountFor(store, cid) + 1))
  {
    forall k | 0 <= k < |store|
      ensures store[k].doc.subscriptionId != Some(InvoiceId(ClientText(clients[cid]), CountFor(store, cid) + 1))
    {
      NumberedBelowNext(store, clients, k, cid);
    }
  }

  /** The subscription at `k` of a numbered collection does not carry the
      identifier the hook would compute next for any known client. */
  lemma NumberedBelowNext(store: SubStore, clients: ClientIds, k: nat, cid: string)
    requires Numbered(store, clients) && DistinctClientTexts(clients) && cid in clients && k < |store|
    ensures store[k].doc.subscriptionId != Some(InvoiceId(ClientText(clients[cid]), CountFor(store, cid) + 1))
  {
    var x := store[k].doc;
    assert NumberedIn(store, clients, x);
    var other := x.clientId.value;
    var j: nat :| 1 <= j <= CountFor(store, other) && x.subscriptionId == Some(InvoiceId(ClientText(clients[other]), j));
    if x.subscriptionId == Some(InvoiceId(ClientText(clients[cid]), CountFor(store, cid) + 1)) {
      InvoiceIdInjective(ClientText(clients[other]), j, ClientText(clients[cid]), CountFor(store, cid) + 1);
      assert false;
    }
  }

  /** A successful save keeps the collection numbered. */
  lemma {:induction false} SaveNewKeepsNumbered(store: SubStore, clients: ClientIds, s: Subscription, newId: string)
    requires Numbered(store, clients)
    requires SaveNew(store, clients, s, newId).Ok?
    ensures Numbered(SaveNew(store, clients, s, newId).value.1, clients)
  {
    var r := SaveNew(store, clients, s, newId).value;
    var x := Stored(newId, r.0);
    assert r.1 == store + [x];
    forall k | 0 <= k < |r.1| ensures NumberedIn(r.1, clients, r.1[k].doc) {
      var cid := r.1[k].doc.clientId.value;
      CountAppend(store, x, cid);
      if k < |store| {
        assert r.1[k] == store[k];
        assert NumberedIn(store, clients, store[k].doc);
        var j: nat :| 1 <= j <= CountFor(store, cid)
          && store[k].doc.subscriptionId == Some(InvoiceId(ClientText(clients[cid]), j));
        assert 1 <= j <= CountFor(r.1, cid);
      } else {
        assert r.1[k] == x;
        assert r.1[k].doc.subscriptionId == Some(InvoiceId(ClientText(clients[cid]), CountFor(r.1, cid)));
      }
    }
  }

  /** Numbering by count reuses numbers after a deletion: with two
      subscriptions "INV-H4001-01" and "INV-H4001-02" of one client, deleting
      the first and saving a new one computes "INV-H4001-02" again, and the
      unique index refuses it. */
  lemma DeletionReusesNumber()
    ensures var clients := map["c1" := Some("H4001")];
      var base := Subscription(None, Some("c1"), None, Some("Gym"), Some("Monthly"), Some(0), Some(1), Some(100), Some(0), Some("Cash"));
      var store := [Stored("s1", base.(subscriptionId := Some("INV-H4001-01"))),
                    Stored("s2", base.(subscriptionId := Some("INV-H4001-02")))];
      SaveNew(Delete(store, "s1"), clients, base, "s3") == Err(DuplicateKey)
  {
    var clients := map["c1" := Some("H4001")];
    var base := Subscription(None, Some("c1"), None, Some("Gym"), Some("Monthly"), Some(0), Some(1), Some(100), Some(0), Some("Cash"));
    var store := [Stored("s1", base.(subscriptionId := Some("INV-H4001-01"))),
                  Stored("s2", base.(subscriptionId := Some("INV-H4001-02")))];
    var left := Delete(store, "s1");
    assert left == [store[1]];
    assert CountFor(left, "c1") == 1;
    assert NatToString(2) == "2";
    assert InvoiceId("H4001", 2) == "INV-H4001-02";
    assert InvoiceTaken(left, "INV-H4001-02");
  }
}
