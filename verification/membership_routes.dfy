/** The membership routes (routes/membershipRoutes.js) that do more than pass
    a body to the database: the bulk create, which stamps the request's
    `clientId` on every item, and the list, which filters by client only when
    asked to. A membership document is a JSON object; the collection is a
    sequence of them in insertion order. */
module MembershipRoutes {
  import opened Wrappers
  import opened JsonValues
  import opened Text
  import opened Collections

  /** The `membershipType` values the schema admits (models/Membership.js). */
  const MembershipTypes: set<string> := {"Membership", "Personal Training", "Group Class"}

  /** The paths of the membership schema; strict mode drops every other key. */
  const SchemaKeys: set<string> := {
    "clientId", "membershipType", "packageName", "joiningDate", "endDate", "sessions", "price",
    "discountPercent", "discountAmount", "admissionCharges", "tax", "amountPayable", "amountPaid",
    "paymentMode", "balance", "followupDate", "status", "paymentDetails", "appointTrainer"}

  type Doc = map<string, Json>

  /** `{ ...m, clientId }`: the item's own properties with `clientId`
      overridden by the request's. */
  function Stamp(m: Json, clientId: Json): (d: Doc)
    ensures "clientId" in d && d["clientId"] == clientId
    ensures forall k :: k in Spread(m) && k != "clientId" ==> k in d && d[k] == Spread(m)[k]
    ensures forall k :: k in d && k != "clientId" ==> k in Spread(m)
  {
    Spread(m)["clientId" := clientId]
  }

  /** `memberships.map(m => ({ ...m, clientId }))`. */
  function BulkDocs(memberships: seq<Json>, clientId: Json): (docs: seq<Doc>)
    ensures |docs| == |memberships|
    ensures forall i :: 0 <= i < |docs| ==> docs[i] == Stamp(memberships[i], clientId)
  {
    seq(|memberships|, i requires 0 <= i < |memberships| => Stamp(memberships[i], clientId))
  }

  /** The bulk output in terms of the input: same length and order, every
      document holding the request's `clientId` and, besides it, exactly the
      item's own properties. */
  lemma BulkDocsKeepItems(memberships: seq<Json>, clientId: Json, i: nat)
    requires i < |memberships|
    ensures var d := BulkDocs(memberships, clientId)[i];
      && d["clientId"] == clientId
      && d.Keys == Spread(memberships[i]).Keys + {"clientId"}
      && forall k :: k in d && k != "clientId" ==> d[k] == Spread(memberships[i])[k]
  {
  }

  /** The document Mongoose keeps of a stamped item: the schema's paths only. */
  function Project(d: Doc): (p: Doc)
    ensures p.Keys == d.Keys * SchemaKeys
    ensures forall k :: k in p ==> p[k] == d[k]
  {
    map k | k in d && k in SchemaKeys :: d[k]
  }

  /** The schema validation `insertMany` runs on every document before
      inserting any: `membershipType` is one of the admitted strings and a
      `clientId` is present. */
  predicate ValidMembership(d: Doc) {
    && "membershipType" in d && d["membershipType"].JStr? && d["membershipType"].s in MembershipTypes
    && "clientId" in d && !d["clientId"].JNull?
  }

  datatype BulkReply =
    | Missing               // 400 "clientId and memberships[] required"
    | Invalid               // 400 with the validation message
    | Inserted(docs: seq<Doc>)  // 201 with the inserted documents

  function BulkStatus(r: BulkReply): int {
    if r.Inserted? then 201 else 400
  }

  /** POST /bulk: 400 unless `clientId` is truthy and `memberships` is an
      array; otherwise every stamped item is validated and, when all pass,
      all are inserted, in order; one invalid item inserts none. */
  function Bulk(store: seq<Doc>, clientId: Option<Json>, memberships: Option<Json>): (res: (BulkReply, seq<Doc>))
    ensures res.0 == Missing <==> !TruthyKey(clientId) || !(memberships.Some? && memberships.value.JArr?)
    ensures !res.0.Inserted? ==> res.1 == store
    ensures res.0.Inserted? ==>
      && |res.0.docs| == |memberships.value.items|
      && res.1 == store + res.0.docs
      && forall i :: 0 <= i < |res.0.docs| ==>
           res.0.docs[i] == Project(Stamp(memberships.value.items[i], clientId.value))
    ensures res.0 == Invalid <==>
      && TruthyKey(clientId) && memberships.Some? && memberships.value.JArr?
      && exists i :: 0 <= i < |memberships.value.items| && !ValidMembership(Stamp(memberships.value.items[i], clientId.value))
  {
    if !TruthyKey(clientId) || !(memberships.Some? && memberships.value.JArr?) then (Missing, store)
    else
      var docs := BulkDocs(memberships.value.items, clientId.value);
      if exists i :: 0 <= i < |docs| && !ValidMembership(docs[i]) then (Invalid, store)
      else
        var kept := seq(|docs|, i requires 0 <= i < |docs| => Project(docs[i]));
        (Inserted(kept), store + kept)
  }

  /** Every inserted document belongs to the request's client, whatever
      `clientId` the item itself carried. */
  lemma BulkOverridesItemClient(store: seq<Doc>, clientId: Option<Json>, memberships: Option<Json>)
    requires Bulk(store, clientId, memberships).0.Inserted?
    ensures var docs := Bulk(store, clientId, memberships).0.docs;
      forall i :: 0 <= i < |docs| ==> "clientId" in docs[i] && docs[i]["clientId"] == clientId.value
  {
  }

  /** `if (req.query.clientId) filter.clientId = req.query.clientId`. */
  predicate Matches(d: Doc, clientId: Option<string>) {
    !Given(clientId) || ("clientId" in d && d["clientId"] == JStr(clientId.value))
  }

  /** GET /: the memberships matching the filter, newest first. */
  function List(store: seq<Doc>, clientId: Option<string>): (r: seq<Doc>)
    ensures |r| <= |store|
    ensures forall k :: 0 <= k < |r| ==> Matches(r[k], clientId)
  {
    if |store| == 0 then []
    else
      var last := store[|store| - 1];
      var older := List(store[..|store| - 1], clientId);
      if Matches(last, clientId) then [last] + older else older
  }

  /** A document is listed exactly when it is stored and matches the filter. */
  lemma {:induction false} ListMembers(store: seq<Doc>, clientId: Option<string>)
    ensures forall d :: d in List(store, clientId) <==> d in store && Matches(d, clientId)
  {
    if |store| > 0 {
      var front := store[..|store| - 1];
      var last := store[|store| - 1];
      ListMembers(front, clientId);
      assert store == front + [last];
      forall d ensures d in List(store, clientId) <==> d in store && Matches(d, clientId) {
        assert d in store <==> d in front || d == last;
      }
    }
  }

  /** Without a (non-empty) `clientId` the list is the whole collection,
      newest first. */
  lemma {:induction false} ListWithoutFilter(store: seq<Doc>, clientId: Option<string>)
    requires clientId.None? || clientId.value == ""
    ensures |List(store, clientId)| == |store|
    ensures forall k :: 0 <= k < |store| ==> List(store, clientId)[k] == store[|store| - 1 - k]
  {
    if |store| > 0 {
      var front := store[..|store| - 1];
      ListWithoutFilter(front, clientId);
      var r := List(store, clientId);
      assert r == [store[|store| - 1]] + List(front, clientId) by {
        assert Matches(store[|store| - 1], clientId);
      }
      forall k | 0 <= k < |store| ensures r[k] == store[|store| - 1 - k] {
        if k > 0 {
          assert r[k] == List(front, clientId)[k - 1];
        }
      }
    }
  }

  /** The filter of `List` as a test on one document. */
  function MatchTest(clientId: Option<string>): Doc -> bool {
    d => Matches(d, clientId)
  }

  /** A find with the filter, sorted by creation time descending: the matching documents in
      insertion order, reversed. */
  lemma {:induction false} ListIsNewestFirstFilter(store: seq<Doc>, clientId: Option<string>)
    ensures List(store, clientId) == Reverse(Filter(store, MatchTest(clientId)))
  {
    if |store| > 0 {
      var front := store[..|store| - 1];
      var last := store[|store| - 1];
      var older := Filter(front, MatchTest(clientId));
      ListIsNewestFirstFilter(front, clientId);
      if Matches(last, clientId) {
        assert Filter(store, MatchTest(clientId)) == older + [last];
        assert (older + [last])[..|older|] == older;
      } else {
        assert Filter(store, MatchTest(clientId)) == older;
      }
    }
  }

  /** Each stored document is listed as often as it is stored when it
      matches, and not at all otherwise. */
  lemma ListCounts(store: seq<Doc>, clientId: Option<string>)
    ensures forall d :: multiset(List(store, clientId))[d] == if Matches(d, clientId) then multiset(store)[d] else 0
  {
    ListIsNewestFirstFilter(store, clientId);
    ReverseMultiset(Filter(store, MatchTest(clientId)));
    FilterMultiset(store, MatchTest(clientId));
  }
}
