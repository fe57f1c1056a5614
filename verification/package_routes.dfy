/** The package routes (routes/packageRoutes.js) over the package schema
    (models/Package.js): create with its required-field check, update and
    delete by `_id`. The collection is a sequence of documents with distinct
    `_id`s; the new document's `_id` is a parameter. */
module PackageRoutes {
  import opened Wrappers
  import opened Collections
  import opened Text

  /** A package: its trimmed name, its length in days and its price. */
  datatype Package = Package(packageName: string, days: int, price: int)

  type StoredPackage = Stored<Package>

  type Packages = seq<StoredPackage>

  /** A request body, its values already of the schema's types; `otherKeys`
      are the keys the routes ignore or strict mode drops. */
  datatype PackageBody = PackageBody(
    packageName: Option<string>, days: Option<int>, price: Option<int>, otherKeys: set<string>)

  datatype Reply =
    | MissingFields            // 400 "All fields are required"
    | NotFound                 // 404 "Package not found"
    | ServerError              // 500, the save or the query failed
    | Created(created: Package)
    | Updated(updated: Package)
    | Deleted                  // 200 "Package deleted successfully"

  function StatusCode(r: Reply): int {
    match r
    case MissingFields => 400
    case NotFound => 404
    case ServerError => 500
    case Created(_) => 201
    case Updated(_) => 200
    case Deleted => 200
  }

  /** `!packageName || !days || !price`: a field missing, an empty name, or
      a zero number. */
  predicate AnyFalsy(body: PackageBody) {
    || !Given(body.packageName)
    || body.days.None? || body.days.value == 0
    || body.price.None? || body.price.value == 0
  }

  /** The schema's validators on a package whose name is already trimmed:
      a non-empty name, at least one day, a price of at least 0. */
  predicate SchemaValid(p: Package) {
    p.packageName != "" && p.days >= 1 && p.price >= 0
  }

  /** POST /: 400 when a field is falsy; otherwise a package of exactly the
      three fields (the name trimmed by the schema's setter) is validated and
      stored, and a failed validation answers 500. */
  function CreatePackage(store: Packages, body: PackageBody, newId: string): (res: (Reply, Packages))
    ensures res.0 == MissingFields <==> AnyFalsy(body)
    ensures !res.0.Created? ==> res.1 == store
    ensures res.0 == ServerError <==>
      !AnyFalsy(body) && !SchemaValid(Package(Trim(body.packageName.value), body.days.value, body.price.value))
    ensures res.0.Created? ==>
      && res.0.created.packageName == Trim(body.packageName.value)
      && res.0.created.days == body.days.value && res.0.created.price == body.price.value
      && SchemaValid(res.0.created)
      && res.1 == store + [Stored(newId, res.0.created)]
  {
    if AnyFalsy(body) then (MissingFields, store)
    else
      var p := Package(Trim(body.packageName.value), body.days.value, body.price.value);
      if !SchemaValid(p) then (ServerError, store)
      else (Created(p), store + [Stored(newId, p)])
  }

  /** Every stored package satisfies the schema after a create. */
  lemma CreateKeepsSchemaValid(store: Packages, body: PackageBody, newId: string)
    requires forall k :: 0 <= k < |store| ==> SchemaValid(store[k].doc)
    ensures var s := CreatePackage(store, body, newId).1;
      forall k :: 0 <= k < |s| ==> SchemaValid(s[k].doc)
  {
  }

  /** Keys besides the three are dropped: they never change the outcome. */
  lemma OtherKeysDropped(store: Packages, body: PackageBody, newId: string, other: set<string>)
    ensures CreatePackage(store, body.(otherKeys := other), newId) == CreatePackage(store, body, newId)
  {
  }

  /** The falsiness check is stricter than the schema: a price of 0, which
      the schema admits, is refused with 400. */
  lemma ZeroPriceRefused(store: Packages, name: string, days: int, newId: string)
    requires Trim(name) != "" && days >= 1
    ensures SchemaValid(Package(Trim(name), days, 0))
    ensures CreatePackage(store, PackageBody(Some(name), Some(days), Some(0), {}), newId).0 == MissingFields
  {
  }

  /** A name of white space alone passes the falsiness check but not the
      schema once trimmed: 500. */
  lemma BlankNameFailsValidation(store: Packages, newId: string)
    ensures CreatePackage(store, PackageBody(Some(" "), Some(30), Some(100), {}), newId).0 == ServerError
  {
    TrimStartSpec(" ");
    assert Trim(" ") == "";
  }

  /** PUT /:id: the body's fields replace the stored ones (the name trimmed,
      no validation); 404 for an unknown id. */
  function UpdatePackage(store: Packages, id: string, body: PackageBody): (res: (Reply, Packages))
    ensures res.0 == NotFound <==> forall k :: 0 <= k < |store| ==> store[k].id != id
    ensures res.0 == NotFound ==> res.1 == store
    ensures res.0 != NotFound ==> res.0.Updated?
    ensures res.0 != NotFound ==>
      exists k :: 0 <= k < |store| && store[k].id == id && (forall j :: 0 <= j < k ==> store[j].id != id)
        && res.1 == store[k := Stored(id, res.0.updated)]
  {
    match FindById(store, id)
    case None => (NotFound, store)
    case Some(k) =>
      var p := store[k].doc;
      var q := Package(
        if body.packageName.Some? then Trim(body.packageName.value) else p.packageName,
        if body.days.Some? then body.days.value else p.days,
        if body.price.Some? then body.price.value else p.price);
      (Updated(q), store[k := Stored(id, q)])
  }

  /** What update writes: each given field, the others kept. */
  lemma UpdatedPackage(store: Packages, k: nat, body: PackageBody)
    requires k < |store|
    requires forall j :: 0 <= j < |store| && j != k ==> store[j].id != store[k].id
    ensures var p := store[k].doc;
      var q := UpdatePackage(store, store[k].id, body).0.updated;
      && q.packageName == (if body.packageName.Some? then Trim(body.packageName.value) else p.packageName)
      && q.days == (if body.days.Some? then body.days.value else p.days)
      && q.price == (if body.price.Some? then body.price.value else p.price)
  {
    assert FindById(store, store[k].id) == Some(k);
  }

  /** Without validators an update can store what create refuses. */
  lemma UpdateSkipsValidation()
    ensures var store := [Stored("p", Package("Monthly", 30, 100))];
      var res := UpdatePackage(store, "p", PackageBody(None, Some(0), Some(-5), {}));
      res.0.Updated? && !SchemaValid(res.1[0].doc)
  {
  }

  /** DELETE /:id: 404 for an unknown id; otherwise the package is removed
      and the others stay in order. */
  function DeletePackage(store: Packages, id: string): (res: (Reply, Packages))
    ensures res.0 == NotFound <==> forall k :: 0 <= k < |store| ==> store[k].id != id
    ensures res.0 == NotFound ==> res.1 == store
    ensures res.0 != NotFound ==> res.0 == Deleted
    ensures res.0 != NotFound ==>
      exists k :: 0 <= k < |store| && store[k].id == id && (forall j :: 0 <= j < k ==> store[j].id != id)
        && res.1 == store[..k] + store[k + 1..]
  {
    match FindById(store, id)
    case None => (NotFound, store)
    case Some(k) => (Deleted, store[..k] + store[k + 1..])
  }

  /** Deleting twice answers 404 the second time when `_id`s are distinct. */
  lemma DeleteThenNotFound(store: Packages, id: string)
    requires DistinctIds(store)
    ensures DeletePackage(DeletePackage(store, id).1, id).0 == NotFound
  {
    var res := DeletePackage(store, id);
    if res.0 == Deleted {
      var k :| 0 <= k < |store| && store[k].id == id && res.1 == store[..k] + store[k + 1..];
      forall j | 0 <= j < |res.1| ensures res.1[j].id != id {
        if j < k {
          assert res.1[j] == store[j];
        } else {
          assert res.1[j] == store[j + 1];
        }
      }
    }
  }
}
