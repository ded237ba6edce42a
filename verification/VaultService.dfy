/** Any number of Vault processes over one database: what holds in every run. */
module VaultService {
  import opened ByteStrings
  import opened Options
  import opened VaultCrypto
  import opened VaultStore

  /** The cryptography in use: the cipher, the two values derived from a KEK, and the keyed hash. */
  datatype Vault = Vault(c: Cipher, kekIdOf: Bytes -> Bytes, fingerprintKeyOf: Bytes -> Bytes, mac: (Bytes, Bytes) -> Bytes)

  function MasterKeyOf(v: Vault, kek: Bytes): MasterKey {
    MasterKey(kek, v.kekIdOf(kek), v.fingerprintKeyOf(kek))
  }

  datatype CreateRequest = CreateRequest(tenantId: Uuid, provider: Provider, text: Bytes, secret: Bytes,
                                         replaceActive: bool, requestId: Option<Uuid>, caller: Bytes)

  function Payload(q: CreateRequest): seq<Bytes> {
    [ProviderName(q.provider), q.text, q.secret, [if q.replaceActive then 1 else 0]]
  }

  function Fingerprint(v: Vault, kek: Bytes, q: CreateRequest): Bytes {
    v.mac(v.fingerprintKeyOf(kek), AllLengthPrefixed(Payload(q)))
  }

  function Owner(tenant: Uuid, id: Uuid, provider: Provider): Subject {
    OfKey(SecretOwner(tenant, id, provider))
  }

  /** What handle_create passes to the store: the secret sealed for its owner, and the request's fingerprint. */
  function ToNewKey(v: Vault, kek: Bytes, q: CreateRequest, id: Uuid, r: Randomness): NewKey {
    NewKey(id, q.tenantId, q.provider, q.text,
           SealWith(v.c, MasterKeyOf(v, kek), q.secret, AadOf(Owner(q.tenantId, id, q.provider)), r),
           q.replaceActive, q.caller,
           if q.requestId.None? then None else Some(Idempotency(q.requestId.value, Fingerprint(v, kek, q))))
  }

  /** handle_get: fetch, then open for the owner the row says. */
  function Opened(v: Vault, kek: Bytes, tenant: Uuid, s: Stored): VaultCrypto.Result<Bytes> {
    OpenWith(v.c, MasterKeyOf(v, kek), s.material, AadOf(Owner(tenant, s.keyId, s.provider)))
  }

  /** How a key was made. */
  datatype Made = Made(kek: Bytes, secret: Bytes, r: Randomness)

  datatype Answer = Answer(request: CreateRequest, kek: Bytes, outcome: Outcome<Created>)

  /** The database, the KEKs of the processes that were let start, and what happened so far. */
  datatype World = World(db: Db, serving: set<Bytes>, made: map<Uuid, Made>, answers: seq<Answer>)

  datatype Action =
    | Start(kek: Bytes)
    | Create(kek: Bytes, q: CreateRequest, id: Uuid, r: Randomness, outcome: Outcome<Created>)
    | Revoke(tenant: Uuid, id: Uuid, reason: Reason, actor: Bytes, row: Outcome<KeyRow>)

  ghost predicate Step(v: Vault, w: World, a: Action, w': World) {
    match a
    case Start(kek) =>
      if w.db.keks == [] || w.db.keks == [v.kekIdOf(kek)] then
        w' == w.(db := w.db.(keks := [v.kekIdOf(kek)]), serving := w.serving + {kek})
      else w' == w
    case Create(kek, q, id, r, outcome) =>
      && kek in w.serving && ValidRandomness(r)
      && Creates(w.db, ToNewKey(v, kek, q, id, r), outcome, w'.db)
      && w' == World(w'.db, w.serving,
                     if outcome.Success? && !outcome.value.replayed then w.made[id := Made(kek, q.secret, r)] else w.made,
                     w.answers + [Answer(q, kek, outcome)])
    case Revoke(tenant, id, reason, actor, row) =>
      Revokes(w.db, tenant, id, reason, actor, row, w'.db) && w' == w.(db := w'.db)
  }

  ghost predicate Run(v: Vault, worlds: seq<World>, actions: seq<Action>) {
    && |worlds| == |actions| + 1
    && worlds[0] == World(Db([], map[], map[]), {}, map[], [])
    && forall i | 0 <= i < |actions| :: Step(v, worlds[i], actions[i], worlds[i + 1])
  }

  /** An active row holds the sealing of the secret it was created with, for its owner, under a registered KEK. */
  ghost predicate HoldsItsSecret(v: Vault, w: World, id: Uuid)
    requires id in w.db.keys
  {
    var row := w.db.keys[id];
    && id in w.made && ValidRandomness(w.made[id].r)
    && row.material == Some(SealWith(v.c, MasterKeyOf(v, w.made[id].kek), w.made[id].secret,
                                     AadOf(Owner(row.tenantId, id, row.provider)), w.made[id].r))
  }

  /** A success that carried a request id is on record, with its answer and its fingerprint. */
  ghost predicate OnRecord(v: Vault, w: World, a: Answer) {
    a.outcome.Success? && a.request.requestId.Some? ==>
      var k := (a.request.tenantId, a.request.requestId.value);
      && k in w.db.requests && w.db.requests[k].fingerprint == Fingerprint(v, a.kek, a.request)
      && w.db.requests[k].keyId == a.outcome.value.keyId && w.db.requests[k].replaced == a.outcome.value.replaced
  }

  ghost predicate Inv(v: Vault, w: World) {
    && ValidDb(w.db)
    && (forall kek | kek in w.serving :: w.db.keks == [v.kekIdOf(kek)])
    && (forall id | id in w.db.keys && w.db.keys[id].active :: HoldsItsSecret(v, w, id))
    && (forall i | 0 <= i < |w.answers| :: OnRecord(v, w, w.answers[i]))
  }

  lemma StartKeepsInv(v: Vault, w: World, kek: Bytes, w': World)
    requires Inv(v, w) && Step(v, w, Start(kek), w')
    ensures Inv(v, w')
  {
    hide AadOf, SealWith, Fingerprint;
    forall id | id in w'.db.keys && w'.db.keys[id].active ensures HoldsItsSecret(v, w', id) {
      assert HoldsItsSecret(v, w, id);
    }
    forall i | 0 <= i < |w'.answers| ensures OnRecord(v, w', w'.answers[i]) {
      assert OnRecord(v, w, w.answers[i]);
    }
    forall k | k in w'.db.requests ensures Refers(w'.db.keys, k.0, w'.db.requests[k]) {
      assert Refers(w.db.keys, k.0, w.db.requests[k]);
    }
  }

  lemma RevokeKeepsInv(v: Vault, w: World, a: Action, w': World)
    requires Inv(v, w) && a.Revoke? && Step(v, w, a, w')
    ensures Inv(v, w')
  {
    hide AadOf, SealWith, Fingerprint, ValidDb;
    if a.id in w.db.keys && w.db.keys[a.id].tenantId == a.tenant {
      if w.db.keys[a.id].active {
        RevokeKeepsValid(w.db, a.id, a.reason, a.actor);
      } else {
        assert w'.db == w.db;
      }
    }
    forall id | id in w'.db.keys && w'.db.keys[id].active ensures HoldsItsSecret(v, w', id) {
      assert HoldsItsSecret(v, w, id);
    }
    forall i | 0 <= i < |w'.answers| ensures OnRecord(v, w', w'.answers[i]) {
      assert OnRecord(v, w, w.answers[i]);
    }
  }

  lemma CreateKeepsSecrets(v: Vault, w: World, a: Action, w': World)
    requires Inv(v, w) && a.Create? && Step(v, w, a, w')
    ensures forall id | id in w'.db.keys && w'.db.keys[id].active :: HoldsItsSecret(v, w', id)
  {
    hide AadOf, SealWith, Fingerprint, ValidDb, OnRecord;
    forall id | id in w'.db.keys && w'.db.keys[id].active ensures HoldsItsSecret(v, w', id) {
      if id in w.db.keys && w.db.keys[id].active {
        assert HoldsItsSecret(v, w, id);
      }
    }
  }

  lemma CreateKeepsRecords(v: Vault, w: World, a: Action, w': World)
    requires Inv(v, w) && a.Create? && Step(v, w, a, w')
    ensures forall i | 0 <= i < |w'.answers| :: OnRecord(v, w', w'.answers[i])
  {
    hide AadOf, SealWith, Fingerprint, ValidDb, HoldsItsSecret;
    forall i | 0 <= i < |w'.answers| ensures OnRecord(v, w', w'.answers[i]) {
      if i < |w.answers| {
        assert OnRecord(v, w, w.answers[i]);
      }
    }
  }

  lemma CreateKeepsInv(v: Vault, w: World, a: Action, w': World)
    requires Inv(v, w) && a.Create? && Step(v, w, a, w')
    ensures Inv(v, w')
  {
    hide HoldsItsSecret, OnRecord, ToNewKey;
    CreateKeepsSecrets(v, w, a, w');
    CreateKeepsRecords(v, w, a, w');
    var n := ToNewKey(v, a.kek, a.q, a.id, a.r);
    if a.outcome.Success? && !a.outcome.value.replayed {
      CreateKeepsValid(w.db, n, a.outcome.value.replaced);
    }
  }

  lemma {:induction false} RunInv(v: Vault, worlds: seq<World>, actions: seq<Action>, n: nat)
    requires Run(v, worlds, actions) && n < |worlds|
    ensures Inv(v, worlds[n])
  {
    if n > 0 {
      hide Inv, Step;
      RunInv(v, worlds, actions, n - 1);
      var a, w, w' := actions[n - 1], worlds[n - 1], worlds[n];
      assert Step(v, w, a, w');
      match a
      case Start(kek) => StartKeepsInv(v, w, kek, w');
      case Create(_, _, _, _, _) => CreateKeepsInv(v, w, a, w');
      case Revoke(_, _, _, _, _) => RevokeKeepsInv(v, w, a, w');
    }
  }

  // ----- what every run guarantees -----

  /** At any time each tenant and provider has at most one active key, and a revoked key has no material. */
  lemma OneActiveKeyEach(v: Vault, worlds: seq<World>, actions: seq<Action>, n: nat)
    requires Run(v, worlds, actions) && n < |worlds|
    ensures |worlds[n].db.keks| <= 1 && OneActive(worlds[n].db.keys)
    ensures forall id :: id in worlds[n].db.keys ==> (worlds[n].db.keys[id].active <==> worlds[n].db.keys[id].material.Some?)
  {
    hide Run, HoldsItsSecret, OnRecord;
    RunInv(v, worlds, actions, n);
    forall id | id in worlds[n].db.keys ensures worlds[n].db.keys[id].active <==> worlds[n].db.keys[id].material.Some? {
      assert Consistent(worlds[n].db.keys[id]);
    }
  }

  /** Whatever a serving process fetches it opens to exactly the secret the key was created with,
      unless two different KEKs have one KEK id. */
  lemma FetchedKeyOpens(v: Vault, worlds: seq<World>, actions: seq<Action>, n: nat, kek: Bytes, tenant: Uuid, s: Selector, r: Outcome<Stored>)
    requires Correct(v.c) && Run(v, worlds, actions) && n < |worlds|
    requires kek in worlds[n].serving && Fetches(worlds[n].db, tenant, s, r) && r.Success?
    ensures r.value.keyId in worlds[n].made
    ensures var made := worlds[n].made[r.value.keyId];
            || Opened(v, kek, tenant, r.value) == Ok(made.secret)
            || (made.kek != kek && v.kekIdOf(made.kek) == v.kekIdOf(kek))
  {
    hide Run, AadOf, SealWith, OpenWith, Correct, OnRecord;
    RunInv(v, worlds, actions, n);
    var w, id := worlds[n], r.value.keyId;
    assert HoldsItsSecret(v, w, id);
    var made := w.made[id];
    var owner := Owner(tenant, id, r.value.provider);
    OpensForItsSubjectOnly(v.c, MasterKeyOf(v, made.kek), made.secret, owner, owner, made.r);
    SealKeepsKekId(v, made, AadOf(owner));
  }

  lemma SealKeepsKekId(v: Vault, made: Made, aad: Aad)
    ensures SealWith(v.c, MasterKeyOf(v, made.kek), made.secret, aad, made.r).kekId == v.kekIdOf(made.kek)
  {
  }

  lemma RevokedStep(v: Vault, w: World, a: Action, w': World, id: Uuid)
    requires ValidDb(w.db) && Step(v, w, a, w') && id in w.db.keys && !w.db.keys[id].active
    ensures id in w'.db.keys && w'.db.keys[id] == w.db.keys[id]
  {
    hide ToNewKey, ValidDb, OneActive;
  }

  /** A revoked key stays revoked: it keeps its row, without material. */
  lemma {:induction false} RevokedForGood(v: Vault, worlds: seq<World>, actions: seq<Action>, i: nat, j: nat, id: Uuid)
    requires Run(v, worlds, actions) && i <= j < |worlds|
    requires id in worlds[i].db.keys && !worlds[i].db.keys[id].active
    ensures id in worlds[j].db.keys && worlds[j].db.keys[id] == worlds[i].db.keys[id] && worlds[j].db.keys[id].material == None
    decreases j
  {
    hide Step, HoldsItsSecret, OnRecord;
    RunInv(v, worlds, actions, j);
    if i < j {
      RevokedForGood(v, worlds, actions, i, j - 1, id);
      RunInv(v, worlds, actions, j - 1);
      RevokedStep(v, worlds[j - 1], actions[j - 1], worlds[j], id);
    }
    assert Consistent(worlds[j].db.keys[id]);
  }

  /** Request records are never changed or dropped. */
  lemma {:induction false} RecordsStay(v: Vault, worlds: seq<World>, actions: seq<Action>, i: nat, j: nat, k: (Uuid, Uuid))
    requires Run(v, worlds, actions) && i <= j < |worlds| && k in worlds[i].db.requests
    ensures k in worlds[j].db.requests && worlds[j].db.requests[k] == worlds[i].db.requests[k]
    decreases j
  {
    if i < j {
      RecordsStay(v, worlds, actions, i, j - 1, k);
      assert Step(v, worlds[j - 1], actions[j - 1], worlds[j]);
    }
  }

  ghost predicate SucceedsWith(a: Action, tenant: Uuid, requestId: Uuid) {
    a.Create? && a.outcome.Success? && a.q.tenantId == tenant && a.q.requestId == Some(requestId)
  }

  /** Two creates collide: different payloads, one fingerprint. */
  ghost predicate FingerprintsCollide(v: Vault, a: Action, b: Action)
    requires a.Create? && b.Create?
  {
    && AllLengthPrefixed(Payload(a.q)) != AllLengthPrefixed(Payload(b.q))
    && Fingerprint(v, a.kek, a.q) == Fingerprint(v, b.kek, b.q)
  }

  lemma SuccessIsOnRecord(v: Vault, w: World, a: Action, w': World, tenant: Uuid, requestId: Uuid)
    requires Step(v, w, a, w') && SucceedsWith(a, tenant, requestId)
    ensures (tenant, requestId) in w'.db.requests
    ensures var record := w'.db.requests[(tenant, requestId)];
            && record.fingerprint == Fingerprint(v, a.kek, a.q)
            && record.keyId == a.outcome.value.keyId && record.replaced == a.outcome.value.replaced
    ensures a.outcome.value.replayed <==> (tenant, requestId) in w.db.requests
  {
    hide Fingerprint, SealWith, AadOf;
  }

  /** Everything a request says but who asks for it, and under what id. */
  ghost predicate SameContent(a: CreateRequest, b: CreateRequest) {
    a.provider == b.provider && a.text == b.text && a.secret == b.secret && a.replaceActive == b.replaceActive
  }

  lemma PayloadSaysAll(a: CreateRequest, b: CreateRequest)
    ensures Payload(a) == Payload(b) <==> SameContent(a, b)
  {
    var p, q := Payload(a), Payload(b);
    ProviderNameInjective(a.provider, b.provider);
    if p == q {
      assert p[0] == q[0] && p[1] == q[1] && p[2] == q[2] && p[3][0] == q[3][0];
    }
  }

  ghost predicate PayloadFits(q: CreateRequest) {
    Fits64(q.text) && Fits64(q.secret)
  }

  /** Retrying a create: every success for one tenant and request id names the same key and the same replaced key,
      only the first made a key, and they carried one payload, unless two payloads have one fingerprint. */
  lemma RetriesNameOneKey(v: Vault, worlds: seq<World>, actions: seq<Action>, i: nat, j: nat, tenant: Uuid, requestId: Uuid)
    requires Run(v, worlds, actions) && i < j < |actions|
    requires SucceedsWith(actions[i], tenant, requestId) && SucceedsWith(actions[j], tenant, requestId)
    requires PayloadFits(actions[i].q) && PayloadFits(actions[j].q)
    ensures actions[j].outcome.value == actions[i].outcome.value.(replayed := true)
    ensures SameContent(actions[i].q, actions[j].q) || FingerprintsCollide(v, actions[i], actions[j])
  {
    PayloadSaysAll(actions[i].q, actions[j].q);
    hide Step, Fingerprint, Fits64;
    SuccessIsOnRecord(v, worlds[i], actions[i], worlds[i + 1], tenant, requestId);
    SuccessIsOnRecord(v, worlds[j], actions[j], worlds[j + 1], tenant, requestId);
    RecordsStay(v, worlds, actions, i + 1, j, (tenant, requestId));
    RecordsStay(v, worlds, actions, j, j + 1, (tenant, requestId));
    SamePayload(v, actions[i], actions[j]);
  }

  lemma SamePayload(v: Vault, a: Action, b: Action)
    requires a.Create? && b.Create? && PayloadFits(a.q) && PayloadFits(b.q)
    requires Fingerprint(v, a.kek, a.q) == Fingerprint(v, b.kek, b.q)
    ensures Payload(a.q) == Payload(b.q) || FingerprintsCollide(v, a, b)
  {
    hide Fingerprint;
    if AllLengthPrefixed(Payload(a.q)) == AllLengthPrefixed(Payload(b.q)) {
      assert Power256(8) > 256 by { assert Power256(2) == 65536; PowerGrows(2, 8); }
      FingerprintInputDetermines(Payload(a.q), Payload(b.q));
    }
  }

  lemma PowerGrows(m: nat, n: nat)
    requires m <= n
    ensures Power256(m) <= Power256(n)
    decreases n
  {
    if m < n { PowerGrows(m, n - 1); }
  }

  /** An action that made a key. */
  ghost predicate Makes(a: Action, id: Uuid) {
    a.Create? && a.outcome.Success? && !a.outcome.value.replayed && a.outcome.value.keyId == id
  }

  lemma StepRecords(v: Vault, w: World, a: Action, w': World, k: (Uuid, Uuid))
    requires Step(v, w, a, w')
    ensures k in w'.db.requests <==> k in w.db.requests || SucceedsWith(a, k.0, k.1)
  {
    hide Fingerprint, SealWith, AadOf;
  }

  /** In every run the requests on record are exactly those some create succeeded with: a create that failed, at any
      statement, left no record. */
  lemma {:induction false} OnRecordIffSucceeded(v: Vault, worlds: seq<World>, actions: seq<Action>, n: nat, k: (Uuid, Uuid))
    requires Run(v, worlds, actions) && n < |worlds|
    ensures k in worlds[n].db.requests <==> exists i | 0 <= i < n :: SucceedsWith(actions[i], k.0, k.1)
  {
    hide Step, SucceedsWith;
    if n > 0 {
      OnRecordIffSucceeded(v, worlds, actions, n - 1, k);
      StepRecords(v, worlds[n - 1], actions[n - 1], worlds[n], k);
    }
  }

  lemma StepKeys(v: Vault, w: World, a: Action, w': World, id: Uuid)
    requires Step(v, w, a, w')
    ensures id in w'.db.keys <==> id in w.db.keys || Makes(a, id)
    ensures Makes(a, id) ==> id !in w.db.keys
  {
    hide Fingerprint, SealWith, AadOf;
  }

  /** In every run the stored keys are exactly those made by a create that succeeded and was no replay, each by one:
      a create that failed left no key, and a retry made none. */
  lemma {:induction false} StoredIffMadeOnce(v: Vault, worlds: seq<World>, actions: seq<Action>, n: nat, id: Uuid)
    requires Run(v, worlds, actions) && n < |worlds|
    ensures id in worlds[n].db.keys <==> exists i | 0 <= i < n :: Makes(actions[i], id)
    ensures forall i, j | 0 <= i < n && 0 <= j < n && Makes(actions[i], id) && Makes(actions[j], id) :: i == j
  {
    hide Step, Makes;
    if n > 0 {
      StoredIffMadeOnce(v, worlds, actions, n - 1, id);
      StepKeys(v, worlds[n - 1], actions[n - 1], worlds[n], id);
    }
  }

  /** A key lost its material only by a revocation of its tenant, or by a create that replaced it and succeeded. */
  ghost predicate Ends(a: Action, id: Uuid) {
    (a.Revoke? && a.id == id && a.row.Success?) || (a.Create? && a.outcome.Success? && !a.outcome.value.replayed && a.outcome.value.replaced == Some(id))
  }

  lemma StepActive(v: Vault, w: World, a: Action, w': World, id: Uuid)
    requires Step(v, w, a, w') && id in w.db.keys
    ensures id in w'.db.keys && (w'.db.keys[id].active <==> w.db.keys[id].active && !Ends(a, id))
  {
    hide Fingerprint, SealWith, AadOf;
  }

  lemma MadeActive(v: Vault, w: World, a: Action, w': World, id: Uuid)
    requires Step(v, w, a, w') && Makes(a, id)
    ensures id in w'.db.keys && w'.db.keys[id].active
  {
    hide Fingerprint, SealWith, AadOf;
  }

  /** In every run a stored key is active exactly until something that succeeded ended it: a create that failed after
      rotating left the old key as it was. */
  lemma {:induction false} ActiveUntilEnded(v: Vault, worlds: seq<World>, actions: seq<Action>, i: nat, n: nat, id: Uuid)
    requires Run(v, worlds, actions) && i < n < |worlds| && Makes(actions[i], id)
    ensures id in worlds[n].db.keys
    ensures worlds[n].db.keys[id].active <==> forall j | i < j < n :: !Ends(actions[j], id)
    decreases n
  {
    hide Step, Makes, Ends;
    if n == i + 1 {
      MadeActive(v, worlds[i], actions[i], worlds[n], id);
    } else {
      ActiveUntilEnded(v, worlds, actions, i, n - 1, id);
      StepActive(v, worlds[n - 1], actions[n - 1], worlds[n], id);
    }
  }

  lemma ClaimedAnswer(v: Vault, w: World, a: Action, w': World)
    requires Step(v, w, a, w') && a.Create? && a.q.requestId.Some? && (a.q.tenantId, a.q.requestId.value) in w.db.requests
    ensures var record := w.db.requests[(a.q.tenantId, a.q.requestId.value)];
            || a.outcome == Failure(Database)
            || a.outcome == if record.fingerprint == Fingerprint(v, a.kek, a.q) then Success(Created(record.keyId, record.replaced, true))
                            else Failure(RequestIdConflict)
  {
    hide Fingerprint, SealWith, AadOf;
  }

  /** In every run, unless the database fails, every later create with a request id that succeeded before is answered by what
      its payload says: the same payload under the same KEK by the same key, another one by a conflict, unless the two collide. */
  lemma RetryIsAnswered(v: Vault, worlds: seq<World>, actions: seq<Action>, i: nat, j: nat, tenant: Uuid, requestId: Uuid)
    requires Run(v, worlds, actions) && i < j < |actions| && SucceedsWith(actions[i], tenant, requestId)
    requires actions[j].Create? && actions[j].q.tenantId == tenant && actions[j].q.requestId == Some(requestId)
    requires actions[j].outcome != Failure(Database) && PayloadFits(actions[i].q) && PayloadFits(actions[j].q)
    ensures SameContent(actions[j].q, actions[i].q) && actions[j].kek == actions[i].kek ==>
              actions[j].outcome == Success(actions[i].outcome.value.(replayed := true))
    ensures !SameContent(actions[j].q, actions[i].q) ==>
              actions[j].outcome == Failure(RequestIdConflict) || FingerprintsCollide(v, actions[i], actions[j])
  {
    PayloadSaysAll(actions[j].q, actions[i].q);
    hide Step, Fits64;
    SuccessIsOnRecord(v, worlds[i], actions[i], worlds[i + 1], tenant, requestId);
    RecordsStay(v, worlds, actions, i + 1, j, (tenant, requestId));
    ClaimedAnswer(v, worlds[j], actions[j], worlds[j + 1]);
    if Fingerprint(v, actions[i].kek, actions[i].q) == Fingerprint(v, actions[j].kek, actions[j].q) {
      SamePayload(v, actions[i], actions[j]);
    }
  }

  // ----- what each request does -----

  /** A new row is the request's own; only a request that asks for it replaces a key, and then the active one. */
  ghost predicate CreatesAsAsked(before: map<Uuid, KeyRow>, q: CreateRequest, id: Uuid, replaced: Option<Uuid>, after: map<Uuid, KeyRow>) {
    && id !in before && after.Keys == before.Keys + {id}
    && after[id] == KeyRow(q.tenantId, q.provider, q.text, true, after[id].material, q.caller, None)
    && (!q.replaceActive ==> replaced.None?)
    && (forall k | k in before :: IsActive(before, q.tenantId, q.provider, k) <==> replaced == Some(k))
    && (forall k | k in before && replaced != Some(k) :: after[k] == before[k])
    && (replaced.Some? && replaced.value in before ==>
        var was := before[replaced.value];
        after[replaced.value] == KeyRow(was.tenantId, was.provider, was.text, false, None, was.createdBy, Some(Revocation(Rotated, q.caller))))
  }

  lemma StepCreatesAsAsked(v: Vault, w: World, a: Action, w': World)
    requires ValidDb(w.db) && Step(v, w, a, w') && a.Create? && a.outcome.Success? && !a.outcome.value.replayed
    ensures a.outcome.value.keyId == a.id && CreatesAsAsked(w.db.keys, a.q, a.id, a.outcome.value.replaced, w'.db.keys)
  {
    hide Fingerprint, SealWith, AadOf;
    var replaced := a.outcome.value.replaced;
    forall k | k in w.db.keys ensures IsActive(w.db.keys, a.q.tenantId, a.q.provider, k) <==> replaced == Some(k) {
      assert OneActive(w.db.keys);
    }
  }

  /** In every run a create that succeeds, other than as a replay, stores the request's tenant, provider, text and caller in an
      active row; unless it was asked to replace, every key stays as it was, and the tenant had no active key of the provider;
      when it was, the active key, if there was one, is the one replaced, and the only one that changes. */
  lemma CreateDoesAsAsked(v: Vault, worlds: seq<World>, actions: seq<Action>, i: nat)
    requires Run(v, worlds, actions) && i < |actions|
    requires actions[i].Create? && actions[i].outcome.Success? && !actions[i].outcome.value.replayed
    ensures actions[i].outcome.value.keyId == actions[i].id
    ensures CreatesAsAsked(worlds[i].db.keys, actions[i].q, actions[i].id, actions[i].outcome.value.replaced, worlds[i + 1].db.keys)
  {
    hide Step, CreatesAsAsked, HoldsItsSecret, OnRecord, ValidDb;
    RunInv(v, worlds, actions, i);
    assert Step(v, worlds[i], actions[i], worlds[i + 1]);
    StepCreatesAsAsked(v, worlds[i], actions[i], worlds[i + 1]);
  }

  ghost predicate IsOnRecord(db: Db, q: CreateRequest) {
    q.requestId.Some? && (q.tenantId, q.requestId.value) in db.requests
  }

  ghost predicate HasActive(keys: map<Uuid, KeyRow>, q: CreateRequest) {
    exists k | k in keys :: keys[k].active && keys[k].tenantId == q.tenantId && keys[k].provider == q.provider
  }

  lemma StepRefuses(v: Vault, w: World, a: Action, w': World)
    requires Step(v, w, a, w') && a.Create? && !IsOnRecord(w.db, a.q) && a.id !in w.db.keys && a.outcome != Failure(Database)
    ensures a.outcome.Success? <==> a.q.replaceActive || !HasActive(w.db.keys, a.q)
    ensures a.outcome.Failure? ==> a.outcome == Failure(ActiveKeyExists)
  {
    hide Fingerprint, SealWith, AadOf;
    if k :| k in w.db.keys && w.db.keys[k].active && w.db.keys[k].tenantId == a.q.tenantId && w.db.keys[k].provider == a.q.provider {
      assert IsActive(w.db.keys, a.q.tenantId, a.q.provider, k);
    }
  }

  /** In every run, unless the database fails, a create that is not on record succeeds exactly when it was asked to replace or
      there is nothing to replace; otherwise the answer is that an active key exists. */
  lemma CreateSucceedsIff(v: Vault, worlds: seq<World>, actions: seq<Action>, i: nat)
    requires Run(v, worlds, actions) && i < |actions| && actions[i].Create? && !IsOnRecord(worlds[i].db, actions[i].q)
    requires actions[i].id !in worlds[i].db.keys && actions[i].outcome != Failure(Database)
    ensures actions[i].outcome.Success? <==> actions[i].q.replaceActive || !HasActive(worlds[i].db.keys, actions[i].q)
    ensures actions[i].outcome.Failure? ==> actions[i].outcome == Failure(ActiveKeyExists)
  {
    hide Step, HasActive, IsOnRecord;
    assert Step(v, worlds[i], actions[i], worlds[i + 1]);
    StepRefuses(v, worlds[i], actions[i], worlds[i + 1]);
  }

  /** In every run a revocation takes the material of exactly the tenant's own active key of that id, and says who and why;
      anything else is left as it is. */
  lemma RevokeDoesAsAsked(v: Vault, worlds: seq<World>, actions: seq<Action>, i: nat)
    requires Run(v, worlds, actions) && i < |actions| && actions[i].Revoke?
    ensures var a, before, after := actions[i], worlds[i].db.keys, worlds[i + 1].db.keys;
            var own := a.id in before && before[a.id].tenantId == a.tenant;
            && after.Keys == before.Keys && worlds[i + 1].db.requests == worlds[i].db.requests
            && (forall k | k in before && !(own && k == a.id && before[k].active) :: after[k] == before[k])
            && (own && before[a.id].active ==>
                var was := before[a.id];
                after[a.id] == KeyRow(was.tenantId, was.provider, was.text, false, None, was.createdBy, Some(Revocation(a.reason, a.actor))))
            && a.row == if own then Success(after[a.id]) else Failure(KeyNotFound)
  {
    assert Step(v, worlds[i], actions[i], worlds[i + 1]);
  }

  /** In every run a fetch of a tenant's own active key by its id succeeds with that key's provider and material; a revoked one is
      reported as such, and any other id, another tenant's included, as not found. By provider it finds the active key. */
  lemma FetchAnswers(v: Vault, worlds: seq<World>, actions: seq<Action>, n: nat, tenant: Uuid, s: Selector, r: Outcome<Stored>)
    requires Run(v, worlds, actions) && n < |worlds| && Fetches(worlds[n].db, tenant, s, r)
    ensures var keys := worlds[n].db.keys;
            && (r.Success? ==> r.value.keyId in keys && keys[r.value.keyId].tenantId == tenant && keys[r.value.keyId].active
                               && keys[r.value.keyId].provider == r.value.provider && keys[r.value.keyId].material == Some(r.value.material)
                               && (s.ById? ==> r.value.keyId == s.keyId) && (s.ActiveFor? ==> r.value.provider == s.provider))
            && (r == Failure(KeyRevoked) ==> s.ById? && s.keyId in keys && keys[s.keyId].tenantId == tenant && keys[s.keyId].material.None?)
            && (r.Failure? && r != Failure(KeyRevoked) ==>
                && r == Failure(KeyNotFound)
                && forall k | k in keys && keys[k].tenantId == tenant :: if s.ById? then k != s.keyId else !(keys[k].active && keys[k].provider == s.provider))
  {
    hide Run;
    OneActiveKeyEach(v, worlds, actions, n);
    if r.Failure? && s.ActiveFor? {
      forall k | k in worlds[n].db.keys && worlds[n].db.keys[k].tenantId == tenant
        ensures !(worlds[n].db.keys[k].active && worlds[n].db.keys[k].provider == s.provider)
      {
        assert !IsActive(worlds[n].db.keys, tenant, s.provider, k);
      }
    }
  }
}
