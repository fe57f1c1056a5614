/** The client document (models/Client.js) and its `pre("save")` hook, which
    gives every new client the identifier "H" followed by 4000 plus the value
    of a counter that it increments first. The counter document lives in
    another collection; it is modelled as the number it holds, 0 standing for
    "no counter document yet" (the upserting `$inc` makes it 1 either way). */
module ClientModel {
  import opened Wrappers
  import opened Text

  /** The number the counter value is added to. */
  const BaseNumber: nat := 4000

  /** A stored client. The paths the schema requires are `Some` once the
      document passed validation; the optional string paths are kept by name. */
  datatype Client = Client(
    clientId: Option<string>,
    name: Option<string>,
    gender: Option<string>,
    contactNumber: Option<string>,
    email: Option<string>,
    details: map<string, string>,
    isActive: bool)

  /** The client collection together with the counter. */
  datatype ClientDb = ClientDb(counter: nat, clients: seq<Client>)

  /** The fields of a request body. */
  datatype ClientBody = ClientBody(
    clientId: Option<string>,
    name: Option<string>,
    gender: Option<string>,
    contactNumber: Option<string>,
    email: Option<string>,
    details: map<string, string>,
    isActive: Option<bool>)

  /** `new Client(body)`: the body's paths, with `isActive` true unless given. */
  function NewClient(body: ClientBody): (c: Client)
    ensures c.isActive <==> body.isActive != Some(false)
    ensures c.clientId == body.clientId && c.name == body.name && c.email == body.email
  {
    Client(body.clientId, body.name, body.gender, body.contactNumber, body.email, body.details,
      body.isActive.GetOr(true))
  }

  /** The message a failed save carries (the route turns it into its answer). */
  const ValidationFailed := "Client validation failed"
  const DuplicateKey := "E11000 duplicate key error"

  /** The schema validation that runs before the hook: the four required
      paths are given. */
  predicate Valid(c: Client) {
    Given(c.name) && Given(c.gender) && Given(c.contactNumber) && Given(c.email)
  }

  /** The identifier for a counter value: `H${4000 + counter.seq}`. */
  function ClientIdFor(n: nat): (id: string)
    ensures |id| >= 2 && id[0] == 'H'
    ensures id[1..] == NatToString(BaseNumber + n)
  {
    "H" + NatToString(BaseNumber + n)
  }

  /** The unique index on `clientId`: no other stored client holds the value. */
  predicate IdTaken(clients: seq<Client>, id: Option<string>) {
    exists k :: 0 <= k < |clients| && clients[k].clientId == id
  }

  /** `save()` of a new client, with the state it leaves behind: validation
      first (a failure leaves the counter alone), then the hook increments
      the counter and sets `clientId`, then the insert, which the unique index
      refuses when the identifier is taken. The counter document lives in
      another collection, so a refused insert does not undo the increment. */
  function SaveNew(db: ClientDb, c: Client): (r: (Result<Client>, ClientDb))
    ensures r.1.counter == if Valid(c) then db.counter + 1 else db.counter
    ensures !Valid(c) ==> r.0 == Err(ValidationFailed)
    ensures r.0.Ok? ==>
      && r.0.value == c.(clientId := Some(ClientIdFor(db.counter + 1)))
      && r.1.clients == db.clients + [r.0.value]
    ensures r.0.Err? ==> r.1.clients == db.clients
    ensures Valid(c) ==> (r.0.Err? <==> IdTaken(db.clients, Some(ClientIdFor(db.counter + 1))))
    ensures Valid(c) && r.0.Err? ==> r.0 == Err(DuplicateKey)
  {
    if !Valid(c) then (Err(ValidationFailed), db)
    else
      var next := db.counter + 1;
      var saved := c.(clientId := Some(ClientIdFor(next)));
      if IdTaken(db.clients, saved.clientId) then (Err(DuplicateKey), db.(counter := next))
      else (Ok(saved), ClientDb(next, db.clients + [saved]))
  }

  /** `save()` of a client already stored at position `k`: the hook does
      nothing, so the document is written with the `clientId` it has; the
      unique index refuses only a changed value that another client holds. */
  function SaveExisting(db: ClientDb, k: nat, c: Client): (r: Result<ClientDb>)
    requires k < |db.clients|
    ensures !Valid(c) ==> r == Err(ValidationFailed)
    ensures r.Ok? ==> r.value == ClientDb(db.counter, db.clients[k := c])
    ensures Valid(c) && c.clientId == db.clients[k].clientId ==> r.Ok?
  {
    if !Valid(c) then Err(ValidationFailed)
    else if c.clientId != db.clients[k].clientId && IdTaken(db.clients, c.clientId) then Err(DuplicateKey)
    else Ok(ClientDb(db.counter, db.clients[k := c]))
  }

  /** Different counter values give different identifiers. */
  lemma ClientIdInjective(a: nat, b: nat)
    requires ClientIdFor(a) == ClientIdFor(b)
    ensures a == b
  {
    assert NatToString(BaseNumber + a) == ClientIdFor(a)[1..];
    NatToStringInjective(BaseNumber + a, BaseNumber + b);
  }

  /** With no counter document yet, the first client is "H4001". */
  lemma FirstClientId()
    ensures ClientIdFor(1) == "H4001"
  {
    assert NatToString(4001) == NatToString(400) + ['1'];
    assert NatToString(400) == NatToString(40) + ['0'];
    assert NatToString(40) == NatToString(4) + ['0'];
  }

  /** Every stored identifier came from a counter value that has already been
      handed out: the state the hook maintains. */
  predicate Numbered(db: ClientDb) {
    forall k :: 0 <= k < |db.clients| ==> HandedOut(db.clients[k], db.counter)
  }

  /** The client's identifier is that of a counter value from 1 to `counter`. */
  predicate HandedOut(c: Client, counter: nat) {
    exists s: nat :: 1 <= s <= counter && c.clientId == Some(ClientIdFor(s))
  }

  /** In a numbered collection the identifier of the next counter value is
      free, so the save of a valid new client always succeeds. */
  lemma NextIdIsFree(db: ClientDb, c: Client)
    requires Numbered(db)
    ensures !IdTaken(db.clients, Some(ClientIdFor(db.counter + 1)))
    ensures Valid(c) ==> SaveNew(db, c).0.Ok?
  {
  }

  /** A save of a new client, failed or not, keeps the collection numbered. */
  lemma {:induction false} SaveNewKeepsNumbered(db: ClientDb, c: Client)
    requires Numbered(db)
    ensures Numbered(SaveNew(db, c).1)
  {
    var db' := SaveNew(db, c).1;
    forall k | 0 <= k < |db'.clients|
      ensures HandedOut(db'.clients[k], db'.counter)
    {
      if k < |db.clients| {
        assert db'.clients[k] == db.clients[k];
        assert HandedOut(db.clients[k], db.counter);
        var s: nat :| 1 <= s <= db.counter && db.clients[k].clientId == Some(ClientIdFor(s));
        assert 1 <= s <= db'.counter;
      } else {
        assert db'.clients[k].clientId == Some(ClientIdFor(db'.counter));
      }
    }
  }

  /** Re-saving a stored client with its identifier unchanged succeeds and
      keeps the identifier and the counter. */
  lemma ResaveKeepsClientId(db: ClientDb, k: nat, c: Client)
    requires k < |db.clients| && Valid(c) && c.clientId == db.clients[k].clientId
    ensures SaveExisting(db, k, c).Ok?
    ensures SaveExisting(db, k, c).value.clients[k].clientId == db.clients[k].clientId
    ensures SaveExisting(db, k, c).value.counter == db.counter
  {
  }

  /** Whatever `clientId` the body of a new client carries, the hook replaces
      it with the generated one. */
  lemma BodyClientIdIgnored(db: ClientDb, body: ClientBody)
    requires SaveNew(db, NewClient(body)).0.Ok?
    ensures SaveNew(db, NewClient(body)).0.value.clientId == Some(ClientIdFor(db.counter + 1))
    ensures SaveNew(db, NewClient(body)).0.value.isActive == body.isActive.GetOr(true)
  {
  }

  /** A save refused by the unique index still used up its counter value, so
      saving the same client again asks for the identifier after it: the
      counter has moved on by two. */
  lemma RetryAfterDuplicate(db: ClientDb, c: Client)
    requires Valid(c)
    requires SaveNew(db, c).0 == Err(DuplicateKey)
    ensures var retry := SaveNew(SaveNew(db, c).1, c);
      && retry.1.counter == db.counter + 2
      && (retry.0.Ok? ==> retry.0.value.clientId == Some(ClientIdFor(db.counter + 2)))
      && (retry.0.Err? <==> IdTaken(db.clients, Some(ClientIdFor(db.counter + 2))))
  {
  }
}
