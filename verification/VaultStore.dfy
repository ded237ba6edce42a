/** The Vault's tables and the operations on them: one registered KEK, at most one active
    key per tenant and provider, idempotent creation, and revocation for good. */
module VaultStore {
  import opened ByteStrings
  import opened Options
  import opened VaultCrypto

  datatype VaultError = ActiveKeyExists | RequestIdConflict | KeyNotFound | KeyRevoked | DataIntegrity | Database
                      | Crypto(error: CryptoError)

  datatype Outcome<+T> = Success(value: T) | Failure(error: VaultError)

  datatype Reason = UserRequested | Rotated | Compromised

  datatype Revocation = Revocation(reason: Reason, actor: Bytes)

  /** A row of provider_keys. */
  datatype KeyRow = KeyRow(tenantId: Uuid, provider: Provider, text: Bytes, active: bool,
                           material: Option<SealedSecret>, createdBy: Bytes, revocation: Option<Revocation>)

  /** A row of create_key_requests. */
  datatype RequestRow = RequestRow(fingerprint: Bytes, keyId: Uuid, replaced: Option<Uuid>)

  datatype Idempotency = Idempotency(requestId: Uuid, fingerprint: Bytes)

  datatype NewKey = NewKey(keyId: Uuid, tenantId: Uuid, provider: Provider, text: Bytes, material: SealedSecret,
                           replaceActive: bool, createdBy: Bytes, idempotency: Option<Idempotency>)

  datatype Created = Created(keyId: Uuid, replaced: Option<Uuid>, replayed: bool)

  datatype Selector = ById(keyId: Uuid) | ActiveFor(provider: Provider)

  datatype Stored = Stored(keyId: Uuid, provider: Provider, material: SealedSecret)

  /** The database. */
  datatype Db = Db(keks: seq<Bytes>, keys: map<Uuid, KeyRow>, requests: map<(Uuid, Uuid), RequestRow>)

  predicate IsActive(keys: map<Uuid, KeyRow>, tenant: Uuid, provider: Provider, id: Uuid) {
    id in keys && keys[id].active && keys[id].tenantId == tenant && keys[id].provider == provider
  }

  /** The table's CHECK: a key is active with its material, or revoked without. */
  ghost predicate Consistent(row: KeyRow) {
    (row.active <==> row.material.Some?) && (row.active <==> row.revocation.None?)
  }

  ghost predicate OneActive(keys: map<Uuid, KeyRow>) {
    forall t, p, i, j | IsActive(keys, t, p, i) && IsActive(keys, t, p, j) :: i == j
  }

  /** A request record names keys of its tenant. */
  ghost predicate Refers(keys: map<Uuid, KeyRow>, tenant: Uuid, r: RequestRow) {
    && r.keyId in keys && keys[r.keyId].tenantId == tenant
    && (r.replaced.Some? ==> r.replaced.value in keys && keys[r.replaced.value].tenantId == tenant)
  }

  ghost predicate ValidDb(db: Db) {
    && |db.keks| <= 1
    && OneActive(db.keys)
    && (forall id | id in db.keys :: Consistent(db.keys[id]))
    && (forall id | id in db.keys && db.keys[id].active :: db.keys[id].material.value.kekId in db.keks)
    && (forall k | k in db.requests :: Refers(db.keys, k.0, db.requests[k]))
  }

  function RevokedRow(row: KeyRow, reason: Reason, actor: Bytes): KeyRow {
    row.(active := false, material := None, revocation := Some(Revocation(reason, actor)))
  }

  function NewRow(n: NewKey): KeyRow {
    KeyRow(n.tenantId, n.provider, n.text, true, Some(n.material), n.createdBy, None)
  }

  // ----- what the operations mean -----

  /** Creating a key: what each answer says of the database before and after. The database may fail in any state. */
  ghost predicate Creates(db: Db, n: NewKey, r: Outcome<Created>, db': Db) {
    var claimed := n.idempotency.Some? && (n.tenantId, n.idempotency.value.requestId) in db.requests;
    match r
    case Success(c) =>
      if claimed then
        var record := db.requests[(n.tenantId, n.idempotency.value.requestId)];
        && db' == db && c == Created(record.keyId, record.replaced, true)
        && record.fingerprint == n.idempotency.value.fingerprint
      else
        && c.keyId == n.keyId && !c.replayed && n.keyId !in db.keys && n.material.kekId in db.keks
        && (c.replaced.Some? ==> n.replaceActive && IsActive(db.keys, n.tenantId, n.provider, c.replaced.value))
        && (c.replaced.None? ==> forall id :: !IsActive(db.keys, n.tenantId, n.provider, id))
        && db' == Db(db.keks, AfterCreate(db.keys, n, c.replaced), RequestsAfter(db.requests, n, c.replaced))
    case Failure(e) =>
      && db' == db
      && match e
         case RequestIdConflict =>
           claimed && db.requests[(n.tenantId, n.idempotency.value.requestId)].fingerprint != n.idempotency.value.fingerprint
         case ActiveKeyExists =>
           !claimed && (n.keyId in db.keys || (!n.replaceActive && exists id :: IsActive(db.keys, n.tenantId, n.provider, id)))
         case Database => true
         case _ => false
  }

  function AfterCreate(keys: map<Uuid, KeyRow>, n: NewKey, replaced: Option<Uuid>): map<Uuid, KeyRow> {
    var kept := if replaced.Some? && replaced.value in keys
                then keys[replaced.value := RevokedRow(keys[replaced.value], Rotated, n.createdBy)] else keys;
    kept[n.keyId := NewRow(n)]
  }

  function RequestsAfter(requests: map<(Uuid, Uuid), RequestRow>, n: NewKey, replaced: Option<Uuid>): map<(Uuid, Uuid), RequestRow> {
    if n.idempotency.None? then requests
    else requests[(n.tenantId, n.idempotency.value.requestId) := RequestRow(n.idempotency.value.fingerprint, n.keyId, replaced)]
  }

  ghost predicate Revokes(db: Db, tenant: Uuid, id: Uuid, reason: Reason, actor: Bytes, r: Outcome<KeyRow>, db': Db) {
    if id in db.keys && db.keys[id].tenantId == tenant then
      var row := if db.keys[id].active then RevokedRow(db.keys[id], reason, actor) else db.keys[id];
      r == Success(row) && db' == db.(keys := db.keys[id := row])
    else r == Failure(KeyNotFound) && db' == db
  }

  ghost predicate Fetches(db: Db, tenant: Uuid, s: Selector, r: Outcome<Stored>) {
    match s
    case ById(id) =>
      if id !in db.keys || db.keys[id].tenantId != tenant then r == Failure(KeyNotFound)
      else if !db.keys[id].active then r == Failure(KeyRevoked)
      else db.keys[id].material.Some? && r == Success(Stored(id, db.keys[id].provider, db.keys[id].material.value))
    case ActiveFor(p) =>
      if r.Success? then
        && IsActive(db.keys, tenant, p, r.value.keyId) && r.value.provider == p
        && db.keys[r.value.keyId].material == Some(r.value.material)
      else r == Failure(KeyNotFound) && forall id :: !IsActive(db.keys, tenant, p, id)
  }

  // ----- the store -----

  class KeyStore {
    var keks: seq<Bytes>
    var keys: map<Uuid, KeyRow>
    var requests: map<(Uuid, Uuid), RequestRow>

    ghost function State(): Db
      reads this
    {
      Db(keks, keys, requests)
    }

    constructor ()
      ensures State() == Db([], map[], map[]) && ValidDb(State())
    {
      keks, keys, requests := [], map[], map[];
    }

    /** Registers the first KEK; afterwards refuses any other. */
    method RegisterKek(kekId: Bytes) returns (ok: bool)
      requires ValidDb(State())
      modifies this
      ensures ValidDb(State())
      ensures ok ==> State() == old(State()).(keks := [kekId]) && (old(keks) == [] || old(keks) == [kekId])
      ensures !ok ==> State() == old(State()) && keks != [] && kekId !in keks
    {
      if kekId in keks {
        return true;
      }
      if |keks| != 0 {
        return false;
      }
      keks := [kekId];
      ok := true;
    }

    /** One transaction: the request id is claimed first; every failure rolls all of it back. `working` says of each
        statement, in order, whether the database carries it out: claim, lock (or replay), rotate or look, insert, record, commit. */
    method Create(n: NewKey, working: seq<bool>) returns (r: Outcome<Created>)
      requires ValidDb(State()) && |working| == 6
      modifies this
      ensures Creates(old(State()), n, r, State())
      ensures (forall i | 0 <= i < 6 :: working[i]) && n.material.kekId in old(keks) ==> r != Failure(Database)
      ensures ValidDb(State())
    {
      hide ValidDb;
      var txRequests, txKeys := requests, keys;
      if !working[0] {
        return Failure(Database);
      }
      if n.idempotency.Some? {
        var claim := (n.tenantId, n.idempotency.value.requestId);
        if claim in txRequests {
          if !working[1] {
            return Failure(Database);
          }
          r := ReplayCreate(n.tenantId, n.idempotency.value);
          return;
        }
        txRequests := txRequests[claim := RequestRow(n.idempotency.value.fingerprint, n.keyId, None)];
      }
      if !working[1] || !working[2] {
        return Failure(Database);
      }
      var active := FindActive(n.tenantId, n.provider);
      var replaced: Option<Uuid> := None;
      if n.replaceActive {
        replaced := active;
        if active.Some? {
          txKeys := txKeys[active.value := RevokedRow(txKeys[active.value], Rotated, n.createdBy)];
        }
      } else if active.Some? {
        return Failure(ActiveKeyExists);
      }
      if n.keyId in txKeys {
        return Failure(ActiveKeyExists);
      }
      if n.material.kekId !in keks || !working[3] {
        return Failure(Database);
      }
      txKeys := txKeys[n.keyId := NewRow(n)];
      if n.idempotency.Some? && replaced.Some? {
        if !working[4] {
          return Failure(Database);
        }
        var claim := (n.tenantId, n.idempotency.value.requestId);
        txRequests := txRequests[claim := txRequests[claim].(replaced := replaced)];
      }
      if !working[5] {
        return Failure(Database);
      }
      CreateKeepsValid(State(), n, replaced);
      keys, requests := txKeys, txRequests;
      r := Success(Created(n.keyId, replaced, false));
    }

    /** Answers a retry from the record of the first attempt. */
    method ReplayCreate(tenant: Uuid, idem: Idempotency) returns (r: Outcome<Created>)
      requires ValidDb(State()) && (tenant, idem.requestId) in requests
      ensures var record := requests[(tenant, idem.requestId)];
              r == if record.fingerprint == idem.fingerprint then Success(Created(record.keyId, record.replaced, true))
                   else Failure(RequestIdConflict)
    {
      var record := requests[(tenant, idem.requestId)];
      assert Refers(keys, tenant, record);
      if record.fingerprint != idem.fingerprint {
        return Failure(RequestIdConflict);
      }
      if record.keyId !in keys || keys[record.keyId].tenantId != tenant {
        return Failure(KeyNotFound);
      }
      if record.replaced.Some? && (record.replaced.value !in keys || keys[record.replaced.value].tenantId != tenant) {
        return Failure(KeyNotFound);
      }
      r := Success(Created(record.keyId, record.replaced, true));
    }

    /** The active key of a tenant and provider, if there is one. */
    method FindActive(tenant: Uuid, provider: Provider) returns (id: Option<Uuid>)
      ensures id.Some? ==> IsActive(keys, tenant, provider, id.value)
      ensures id.None? ==> forall k :: !IsActive(keys, tenant, provider, k)
    {
      if k :| k in keys && IsActive(keys, tenant, provider, k) {
        id := Some(k);
      } else {
        id := None;
      }
    }

    method FetchSealed(tenant: Uuid, s: Selector) returns (r: Outcome<Stored>)
      requires ValidDb(State())
      ensures Fetches(State(), tenant, s, r)
    {
      var id: Option<Uuid>;
      match s {
        case ById(k) =>
          id := if k in keys && keys[k].tenantId == tenant then Some(k) else None;
        case ActiveFor(p) =>
          id := FindActive(tenant, p);
      }
      if id.None? {
        return Failure(KeyNotFound);
      }
      var row := keys[id.value];
      assert Consistent(row);
      if !row.active {
        return Failure(KeyRevoked);
      }
      r := Success(Stored(id.value, row.provider, row.material.value));
    }

    /** Takes an active key's material away for good; a key already revoked stays as it was. */
    method Revoke(tenant: Uuid, id: Uuid, reason: Reason, actor: Bytes) returns (r: Outcome<KeyRow>)
      requires ValidDb(State())
      modifies this
      ensures Revokes(old(State()), tenant, id, reason, actor, r, State())
      ensures ValidDb(State())
    {
      if id in keys && keys[id].tenantId == tenant && keys[id].active {
        RevokeKeepsValid(State(), id, reason, actor);
        keys := keys[id := RevokedRow(keys[id], reason, actor)];
        r := Success(keys[id]);
      } else if id in keys && keys[id].tenantId == tenant {
        r := Success(keys[id]);
        assert keys[id := keys[id]] == keys;
      } else {
        r := Failure(KeyNotFound);
      }
    }
  }

  lemma CreateKeepsValid(db: Db, n: NewKey, replaced: Option<Uuid>)
    requires ValidDb(db) && n.keyId !in db.keys && n.material.kekId in db.keks
    requires replaced.Some? ==> IsActive(db.keys, n.tenantId, n.provider, replaced.value)
    requires replaced.None? ==> forall id :: !IsActive(db.keys, n.tenantId, n.provider, id)
    ensures ValidDb(Db(db.keks, AfterCreate(db.keys, n, replaced), RequestsAfter(db.requests, n, replaced)))
  {
    var keys := AfterCreate(db.keys, n, replaced);
    forall t, p, i, j | IsActive(keys, t, p, i) && IsActive(keys, t, p, j) ensures i == j {
      assert i != n.keyId ==> IsActive(db.keys, t, p, i);
      assert j != n.keyId ==> IsActive(db.keys, t, p, j);
    }
    var requests := RequestsAfter(db.requests, n, replaced);
    forall k | k in requests ensures Refers(keys, k.0, requests[k]) {
      assert k in db.requests ==> Refers(db.keys, k.0, db.requests[k]);
    }
  }

  lemma RevokeKeepsValid(db: Db, id: Uuid, reason: Reason, actor: Bytes)
    requires ValidDb(db) && id in db.keys
    ensures ValidDb(db.(keys := db.keys[id := RevokedRow(db.keys[id], reason, actor)]))
  {
    var keys := db.keys[id := RevokedRow(db.keys[id], reason, actor)];
    forall t, p, i, j | IsActive(keys, t, p, i) && IsActive(keys, t, p, j) ensures i == j {
      assert IsActive(db.keys, t, p, i) && IsActive(db.keys, t, p, j);
    }
    forall k | k in db.requests ensures Refers(keys, k.0, db.requests[k]) {
      assert Refers(db.keys, k.0, db.requests[k]);
    }
  }
}
