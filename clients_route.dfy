/** The clients endpoint: a user's clients are one array under `clients:<email>`. */
module ClientsRoute {
  import opened Wrappers
  import opened Types
  import opened Http
  import opened Store

  const ClientPrefix: string := "clients:"

  /** `getClientKey`. */
  function ClientKey(email: string): (r: string)
    ensures |r| == |ClientPrefix| + |email| && r[..|ClientPrefix|] == ClientPrefix
    ensures r[|ClientPrefix|..] == email
  {
    ClientPrefix + email
  }

  /** Different users have different client keys. */
  lemma ClientKeyInjective(a: string, b: string)
    requires ClientKey(a) == ClientKey(b)
    ensures a == b
  {
    assert a == ClientKey(a)[|ClientPrefix|..];
  }

  /** `(await redis.get(clientKey)) || []`. */
  function StoredClients(db: Redis, email: string): (r: seq<Client>)
    reads db
    ensures db.GetClients(ClientKey(email)).None? ==> r == []
    ensures db.GetClients(ClientKey(email)).Some? ==> r == db.GetClients(ClientKey(email)).value
  {
    db.GetClients(ClientKey(email)).GetOr([])
  }

  predicate DistinctIds(cs: seq<Client>) {
    forall i, j :: 0 <= i < j < |cs| ==> cs[i].id != cs[j].id
  }

  /** No client in `cs` has the id `id`: what a freshly generated id is expected to be. */
  predicate FreshFor(cs: seq<Client>, id: string) {
    forall i :: 0 <= i < |cs| ==> cs[i].id != id
  }

  /** Appending a client whose id is new keeps the ids distinct. */
  lemma AppendFreshKeepsDistinct(cs: seq<Client>, c: Client)
    requires DistinctIds(cs) && FreshFor(cs, c.id)
    ensures DistinctIds(cs + [c])
  {
  }

  /** Both the email and the user id are needed to create. */
  predicate CanCreate(s: Session) {
    Truthy(s.email) && Truthy(s.id)
  }

  const NameRequired: string := "Name is required"

  /** `GET`: 401 without an email; otherwise the stored clients, or none. */
  method Get(db: Redis, session: Session) returns (resp: Response<seq<Client>>)
    ensures !SignedIn(session) ==> resp == Denied()
    ensures SignedIn(session) ==> resp == Ok(200, StoredClients(db, session.email.value))
  {
    if !SignedIn(session) {
      return Denied();
    }
    var clients := db.GetClients(ClientKey(session.email.value));
    resp := Ok(200, clients.GetOr([]));
  }

  /**
   * `POST`: 401 without both an email and a user id, 400 without a name, and otherwise 201
   * with a new client, owned by the user id, appended after the stored ones. Nothing is
   * written unless the client is created.
   */
  method Post(db: Redis, session: Session, name: Option<string>, freshId: string) returns (resp: Response<Client>)
    modifies db
    ensures !CanCreate(session) ==> resp == Denied() && db.data == old(db.data)
    ensures CanCreate(session) && !Truthy(name) ==>
              resp == Fail(400, NameRequired) && db.data == old(db.data)
    ensures CanCreate(session) && Truthy(name) ==>
              resp == Ok(201, Client(freshId, name.value, session.id.value))
              && db.data == old(db.data)[ClientKey(session.email.value) :=
                   ClientList(old(StoredClients(db, session.email.value)) + [resp.value])]
    ensures resp.Ok? ==>
              StoredClients(db, session.email.value) == old(StoredClients(db, session.email.value)) + [resp.value]
    ensures resp.Ok? && DistinctIds(old(StoredClients(db, session.email.value)))
            && FreshFor(old(StoredClients(db, session.email.value)), freshId) ==>
              DistinctIds(StoredClients(db, session.email.value))
  {
    if !CanCreate(session) {
      return Denied();
    }
    if !Truthy(name) {
      return Fail(400, NameRequired);
    }
    var key := ClientKey(session.email.value);
    var c := Client(freshId, name.value, session.id.value);
    var clients := db.GetClients(key).GetOr([]);
    if DistinctIds(clients) && FreshFor(clients, freshId) {
      AppendFreshKeepsDistinct(clients, c);
    }
    clients := clients + [c];
    db.Set(key, ClientList(clients));
    resp := Ok(201, c);
  }

  /**
   * A signed-in user without a user id can list clients but not create one; the store is
   * left as it was.
   */
  method ListButNotCreate(initial: seq<Client>, email: string, name: string, freshId: string)
    returns (listed: Response<seq<Client>>, created: Response<Client>, after: seq<Client>)
    requires email != ""
    ensures listed == Ok(200, initial)
    ensures created == Denied() && after == initial
  {
    var session := Session(Some(email), None);
    var db := new Redis(map[ClientKey(email) := ClientList(initial)]);
    listed := Get(db, session);
    created := Post(db, session, Some(name), freshId);
    after := StoredClients(db, email);
  }

  /** Creating a client under a fresh id, over stored clients with distinct ids, keeps the ids distinct. */
  method CreateKeepsIdsDistinct(initial: seq<Client>, session: Session, name: string, freshId: string)
    returns (created: Response<Client>, listed: Response<seq<Client>>)
    requires CanCreate(session) && name != ""
    requires DistinctIds(initial) && FreshFor(initial, freshId)
    ensures created.Ok? && created.value.id == freshId && created.value.name == name
    ensures listed.Ok? && listed.value == initial + [created.value] && DistinctIds(listed.value)
  {
    var db := new Redis(map[ClientKey(session.email.value) := ClientList(initial)]);
    created := Post(db, session, Some(name), freshId);
    listed := Get(db, session);
  }
}
