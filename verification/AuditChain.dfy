/** Audit events, and what the trail needs to know of how they are hashed. */
module AuditEvents {
  import opened ByteStrings

  /** The most events the service takes in one request. */
  const MAX_BATCH: nat := 500

  /** An event a producer reports, as the service reads it: ids in their canonical form, times in Unix microseconds.
      One the service cannot read stands for itself. */
  datatype Event = Event(
    tenantId: Bytes, eventId: Bytes, occurTime: int, actorKind: Bytes, actorId: Bytes, onBehalfOf: Bytes,
    action: Bytes, targetType: Bytes, targetId: Bytes, outcome: Bytes, reason: Bytes, requestId: Bytes,
    details: map<Bytes, Bytes>)

  /** An event with what the service stamps on it when it appends it. */
  datatype Stamped = Stamped(event: Event, sequence: int, recordTime: int, source: Bytes)

  /** The text form of a uuid column: 36 characters, hexadecimal digits and dashes. */
  ghost predicate CanonicalId(id: Bytes) {
    && |id| == 36
    && forall i | 0 <= i < 36 ::
        if i in {8, 13, 18, 23} then id[i] == DASH else ZERO <= id[i] <= ZERO + 9 || 97 <= id[i] <= 102
  }

  /** A chain's hash: a digest of an encoding of the previous hash and the event. */
  datatype Hashing = Hashing(digest: Bytes -> Bytes, encode: (Bytes, Stamped) -> Bytes)

  /** What an event hashes to after `prev`. */
  function Link(c: Hashing, prev: Bytes, e: Stamped): Bytes {
    c.digest(c.encode(prev, e))
  }

  ghost predicate PreviousHash(p: Bytes) {
    |p| == 0 || |p| == 32
  }

  ghost predicate Digests(c: Hashing) {
    forall b :: |c.digest(b)| == 32
  }

  /** The encoded bytes determine the previous hash and the event. */
  ghost predicate Determines(c: Hashing) {
    forall p, d: Stamped, q, e: Stamped |
      && PreviousHash(p) && PreviousHash(q)
      && CanonicalId(d.event.tenantId) && CanonicalId(e.event.tenantId)
      && c.encode(p, d) == c.encode(q, e) :: p == q && d == e
  }
}

/** The audit trail's hash chain: what is hashed for one event, and that the
    hashed bytes determine the previous hash and every field. */
module AuditChain {
  import opened ByteStrings
  import opened Sorting
  import opened AuditEvents

  /** SHA-256, known only by its output length. */
  type Digest = h: Bytes -> Bytes | forall b :: |h(b)| == 32
    witness (b: Bytes) => BigEndian(0, 32)

  const DOMAIN: Bytes := Ascii("jarvis.audit.v1") + [0]

  /** Base 128 varint, least significant group first (`binary.PutUvarint`). */
  function Uvarint(n: nat): (b: Bytes)
    ensures |b| > 0
  {
    if n < 128 then [n as byte] else [(n % 128 + 128) as byte] + Uvarint(n / 128)
  }

  function Field(s: Bytes): Bytes {
    Uvarint(|s|) + s
  }

  function Encode(fields: seq<Bytes>): Bytes {
    if fields == [] then [] else Field(fields[0]) + Encode(fields[1..])
  }

  ghost function Enumerate(s: set<Bytes>): (r: seq<Bytes>)
    ensures |r| == |s| && Distinct(r) && forall x :: x in r <==> x in s
  {
    if s == {} then [] else var x :| x in s; [x] + Enumerate(s - {x})
  }

  lemma LexOrder()
    ensures TotalPreorder(LexLe)
  {
    forall a, b ensures LexLe(a, b) || LexLe(b, a) { LexTotal(a, b); }
    forall a, b, c | LexLe(a, b) && LexLe(b, c) ensures LexLe(a, c) { LexTransitive(a, b, c); }
  }

  /** The keys of a details map, as the chain writes them. */
  ghost function KeysInOrder(keys: set<Bytes>): (r: seq<Bytes>)
    ensures |r| == |keys| && Distinct(r) && Sorted(r, LexLe) && forall x :: x in r <==> x in keys
  {
    LexOrder();
    SortSorts(Enumerate(keys), LexLe);
    DistinctPermutes(Enumerate(keys), Sort(Enumerate(keys), LexLe));
    Sort(Enumerate(keys), LexLe)
  }

  function DetailFields(keys: seq<Bytes>, details: map<Bytes, Bytes>): (fields: seq<Bytes>)
    requires forall k | k in keys :: k in details
    ensures |fields| == 2 * |keys|
  {
    if keys == [] then []
    else DetailFields(keys[..|keys| - 1], details) + [keys[|keys| - 1], details[keys[|keys| - 1]]]
  }

  function WhenFields(e: Stamped): seq<Bytes> {
    [e.event.tenantId, Decimal(e.sequence), e.event.eventId, Decimal(e.event.occurTime), Decimal(e.recordTime)]
  }

  function WhoFields(e: Stamped): seq<Bytes> {
    [e.event.actorKind, e.event.actorId, e.event.onBehalfOf, e.event.action, e.event.targetType]
  }

  function WhatFields(e: Stamped): seq<Bytes> {
    [e.event.targetId, e.event.outcome, e.event.reason, e.event.requestId, e.source]
  }

  /** The fields before the details, the last of them the number of details. */
  function FixedFields(e: Stamped): (fields: seq<Bytes>)
    ensures |fields| == 16
  {
    WhenFields(e) + WhoFields(e) + WhatFields(e) + [Decimal(|e.event.details|)]
  }

  ghost function AllDetailFields(details: map<Bytes, Bytes>): (fields: seq<Bytes>)
    ensures |fields| == 2 * |details|
  {
    assert |details.Keys| == |details|;
    DetailFields(KeysInOrder(details.Keys), details)
  }

  ghost function Fields(e: Stamped): seq<Bytes> {
    FixedFields(e) + AllDetailFields(e.event.details)
  }

  ghost function Preimage(prev: Bytes, e: Stamped): Bytes {
    DOMAIN + prev + Encode(Fields(e))
  }

  /** How the service hashes its chains. */
  ghost function ChainHashing(h: Digest): Hashing {
    Hashing(h, (prev, e) => Preimage(prev, e))
  }

  /** The number seven-bit groups stand for, the least significant first. */
  function GroupsValue(b: Bytes): nat {
    if b == [] then 0 else b[0] as nat % 128 + 128 * GroupsValue(b[1..])
  }

  /** A varint is the number's groups, as few as there can be, with the high bit set on all but the last. */
  lemma {:induction false} UvarintMeans(n: nat)
    ensures var b := Uvarint(n);
            && GroupsValue(b) == n && b[|b| - 1] < 128 && (|b| > 1 ==> b[|b| - 1] > 0)
            && forall i | 0 <= i < |b| - 1 :: b[i] >= 128
  {
    if n < 128 {
      assert [n as byte][1..] == [];
    } else {
      UvarintMeans(n / 128);
      assert Uvarint(n)[1..] == Uvarint(n / 128);
    }
  }

  /** The fields hashed first, in order: what happened when, who did it, what it was, and how many details there are. */
  lemma FieldsInOrder(e: Stamped)
    ensures var v := e.event;
            FixedFields(e) == [v.tenantId, Decimal(e.sequence), v.eventId, Decimal(v.occurTime), Decimal(e.recordTime), v.actorKind,
                               v.actorId, v.onBehalfOf, v.action, v.targetType, v.targetId, v.outcome, v.reason, v.requestId, e.source,
                               Decimal(|v.details|)]
  {
    hide Decimal;
  }

  /** Then each detail's value after its key, the keys in byte order. */
  lemma DetailsInOrder(details: map<Bytes, Bytes>, i: nat, j: nat)
    requires i <= j < |details|
    ensures var fields := AllDetailFields(details);
            && fields[2 * i] in details && fields[2 * i + 1] == details[fields[2 * i]]
            && (i < j ==> fields[2 * i] != fields[2 * j] && LexLe(fields[2 * i], fields[2 * j]))
  {
    hide LexLe;
    assert |details| == |details.Keys|;
    var keys := KeysInOrder(details.Keys);
    hide KeysInOrder;
    DetailAt(keys, details, i);
    DetailAt(keys, details, j);
  }

  lemma {:induction false} DetailAt(keys: seq<Bytes>, details: map<Bytes, Bytes>, i: nat)
    requires (forall k | k in keys :: k in details) && i < |keys|
    ensures DetailFields(keys, details)[2 * i] == keys[i] && DetailFields(keys, details)[2 * i + 1] == details[keys[i]]
  {
    if i < |keys| - 1 { DetailAt(keys[..|keys| - 1], details, i); }
  }

  // ----- computing the hash -----

  lemma {:induction false} EncodeSnoc(fields: seq<Bytes>, f: Bytes)
    ensures Encode(fields + [f]) == Encode(fields) + Field(f)
  {
    if fields == [] {
      assert Encode([f]) == Field(f) + Encode([]);
    } else {
      assert (fields + [f])[1..] == fields[1..] + [f];
      EncodeSnoc(fields[1..], f);
    }
  }

  /** Feeds one field to the running hasher, which holds `DOMAIN + prev` and the fields written so far. */
  method WriteField(hasher: Bytes, s: Bytes, ghost prev: Bytes, ghost written: seq<Bytes>)
    returns (fed: Bytes, ghost now: seq<Bytes>)
    requires hasher == DOMAIN + prev + Encode(written)
    ensures now == written + [s] && fed == DOMAIN + prev + Encode(now)
  {
    EncodeSnoc(written, s);
    fed := hasher + Field(s);
    now := written + [s];
  }

  method WriteWhen(hasher: Bytes, e: Stamped, ghost prev: Bytes) returns (fed: Bytes)
    requires hasher == DOMAIN + prev
    ensures fed == DOMAIN + prev + Encode(WhenFields(e))
  {
    ghost var w: seq<Bytes> := [];
    fed, w := WriteField(hasher, e.event.tenantId, prev, w);
    fed, w := WriteField(fed, Decimal(e.sequence), prev, w);
    fed, w := WriteField(fed, e.event.eventId, prev, w);
    fed, w := WriteField(fed, Decimal(e.event.occurTime), prev, w);
    fed, w := WriteField(fed, Decimal(e.recordTime), prev, w);
    assert w == WhenFields(e);
  }

  method WriteWho(hasher: Bytes, e: Stamped, ghost prev: Bytes, ghost written: seq<Bytes>) returns (fed: Bytes)
    requires hasher == DOMAIN + prev + Encode(written)
    ensures fed == DOMAIN + prev + Encode(written + WhoFields(e))
  {
    ghost var w := written;
    fed, w := WriteField(hasher, e.event.actorKind, prev, w);
    fed, w := WriteField(fed, e.event.actorId, prev, w);
    fed, w := WriteField(fed, e.event.onBehalfOf, prev, w);
    fed, w := WriteField(fed, e.event.action, prev, w);
    fed, w := WriteField(fed, e.event.targetType, prev, w);
    assert w == written + WhoFields(e);
  }

  method WriteWhat(hasher: Bytes, e: Stamped, ghost prev: Bytes, ghost written: seq<Bytes>) returns (fed: Bytes)
    requires hasher == DOMAIN + prev + Encode(written)
    ensures fed == DOMAIN + prev + Encode(written + WhatFields(e))
  {
    ghost var w := written;
    fed, w := WriteField(hasher, e.event.targetId, prev, w);
    fed, w := WriteField(fed, e.event.outcome, prev, w);
    fed, w := WriteField(fed, e.event.reason, prev, w);
    fed, w := WriteField(fed, e.event.requestId, prev, w);
    fed, w := WriteField(fed, e.source, prev, w);
    assert w == written + WhatFields(e);
  }

  lemma NoDetails(none: seq<Bytes>, details: map<Bytes, Bytes>)
    requires none == []
    ensures DetailFields(none, details) == []
  {
  }

  lemma OneMoreDetail(keys: seq<Bytes>, details: map<Bytes, Bytes>, i: nat)
    requires (forall k | k in keys :: k in details) && i < |keys|
    ensures DetailFields(keys[..i + 1], details) == DetailFields(keys[..i], details) + [keys[i], details[keys[i]]]
  {
    assert keys[..i + 1][..i] == keys[..i];
  }

  method WriteDetails(hasher: Bytes, keys: seq<Bytes>, details: map<Bytes, Bytes>,
                      ghost prev: Bytes, ghost written: seq<Bytes>) returns (fed: Bytes)
    requires hasher == DOMAIN + prev + Encode(written)
    requires forall k | k in keys :: k in details
    ensures fed == DOMAIN + prev + Encode(written + DetailFields(keys, details))
  {
    hide Encode, DetailFields;
    fed := hasher;
    ghost var w := written;
    assert DetailFields(keys[..0], details) == [] by { NoDetails(keys[..0], details); }
    for i := 0 to |keys|
      invariant fed == DOMAIN + prev + Encode(w)
      invariant w == written + DetailFields(keys[..i], details)
    {
      fed, w := WriteField(fed, keys[i], prev, w);
      fed, w := WriteField(fed, details[keys[i]], prev, w);
      OneMoreDetail(keys, details, i);
    }
    assert keys[..|keys|] == keys;
  }

  method Hash(h: Digest, prev: Bytes, e: Stamped) returns (hash: Bytes)
    ensures hash == h(Preimage(prev, e))
  {
    var hasher := DOMAIN;
    hasher := hasher + prev;
    hasher := WriteWhen(hasher, e, prev);
    hasher := WriteWho(hasher, e, prev, WhenFields(e));
    hasher := WriteWhat(hasher, e, prev, WhenFields(e) + WhoFields(e));
    var keys := SortedKeys(e.event.details);
    ghost var w;
    hasher, w := WriteField(hasher, Decimal(|keys|), prev, WhenFields(e) + WhoFields(e) + WhatFields(e));
    hasher := WriteDetails(hasher, keys, e.event.details, prev, w);
    hash := h(hasher);
  }

  /** Collects the keys in whatever order the map yields them, then sorts them. */
  method SortedKeys(details: map<Bytes, Bytes>) returns (keys: seq<Bytes>)
    ensures keys == KeysInOrder(details.Keys)
  {
    keys := [];
    var rest := details.Keys;
    while rest != {}
      invariant rest <= details.Keys && Distinct(keys)
      invariant forall k :: k in keys <==> k in details.Keys - rest
      decreases rest
    {
      var k :| k in rest;
      assert k !in keys;
      keys, rest := keys + [k], rest - {k};
    }
    LexOrder();
    SortSorts(keys, LexLe);
    DistinctPermutes(keys, Sort(keys, LexLe));
    keys := Sort(keys, LexLe);
    forall x, y | LexLe(x, y) && LexLe(y, x) ensures x == y { LexTotal(x, y); }
    AscendingIsUnique(keys, KeysInOrder(details.Keys), LexLe);
  }

  // ----- the hashed bytes determine the event -----

  lemma {:induction false} UvarintCancel(m: nat, x: Bytes, n: nat, y: Bytes)
    ensures Uvarint(m) + x == Uvarint(n) + y ==> m == n && x == y
  {
    var a, b := Uvarint(m) + x, Uvarint(n) + y;
    if a == b {
      assert a[0] == Uvarint(m)[0] && b[0] == Uvarint(n)[0];
      if m < 128 {
        assert a[1..] == x && b[1..] == y;
      } else {
        assert a[1..] == Uvarint(m / 128) + x;
        assert b[1..] == Uvarint(n / 128) + y;
        UvarintCancel(m / 128, x, n / 128, y);
      }
    }
  }

  lemma FieldCancel(s: Bytes, x: Bytes, t: Bytes, y: Bytes)
    requires Field(s) + x == Field(t) + y
    ensures s == t && x == y
  {
    assert Field(s) + x == Uvarint(|s|) + (s + x) && Field(t) + y == Uvarint(|t|) + (t + y);
    UvarintCancel(|s|, s + x, |t|, t + y);
    CutEqual(s, x, t, y);
  }

  /** Equally many fields can be read back from what follows them. */
  lemma {:induction false} EncodeCancel(a: seq<Bytes>, x: Bytes, b: seq<Bytes>, y: Bytes)
    requires |a| == |b| && Encode(a) + x == Encode(b) + y
    ensures a == b && x == y
  {
    if a == [] {
      assert Encode(a) + x == x && Encode(b) + y == y;
    } else {
      assert Encode(a) + x == Field(a[0]) + (Encode(a[1..]) + x);
      assert Encode(b) + y == Field(b[0]) + (Encode(b[1..]) + y);
      FieldCancel(a[0], Encode(a[1..]) + x, b[0], Encode(b[1..]) + y);
      EncodeCancel(a[1..], x, b[1..], y);
      assert a == [a[0]] + a[1..] && b == [b[0]] + b[1..];
    }
  }

  lemma {:induction false} EncodeConcat(a: seq<Bytes>, b: seq<Bytes>)
    ensures Encode(a + b) == Encode(a) + Encode(b)
  {
    if a == [] {
      assert a + b == b;
    } else {
      assert (a + b)[1..] == a[1..] + b;
      EncodeConcat(a[1..], b);
    }
  }

  lemma {:induction false} DetailFieldsDetermine(k: seq<Bytes>, m: map<Bytes, Bytes>, l: seq<Bytes>, n: map<Bytes, Bytes>)
    requires forall x | x in k :: x in m
    requires forall x | x in l :: x in n
    requires |k| == |l| && DetailFields(k, m) == DetailFields(l, n)
    ensures k == l && forall x | x in k :: m[x] == n[x]
  {
    if k != [] {
      var i := |k| - 1;
      CutEqual(DetailFields(k[..i], m), [k[i], m[k[i]]], DetailFields(l[..i], n), [l[i], n[l[i]]]);
      assert [k[i], m[k[i]]][0] == [l[i], n[l[i]]][0] && [k[i], m[k[i]]][1] == [l[i], n[l[i]]][1];
      DetailFieldsDetermine(k[..i], m, l[..i], n);
      assert k == k[..i] + [k[i]] && l == l[..i] + [l[i]];
    }
  }

  lemma EncodeSplit(f: seq<Bytes>, a: seq<Bytes>, g: seq<Bytes>, b: seq<Bytes>)
    requires |f| == |g| && Encode(f + a) == Encode(g + b)
    ensures f == g && Encode(a) == Encode(b)
  {
    EncodeConcat(f, a);
    EncodeConcat(g, b);
    EncodeCancel(f, Encode(a), g, Encode(b));
  }

  lemma DetailsDetermine(m: map<Bytes, Bytes>, n: map<Bytes, Bytes>)
    requires AllDetailFields(m) == AllDetailFields(n)
    ensures m == n
  {
    hide KeysInOrder, DetailFields, Sorted, Distinct;
    DetailFieldsDetermine(KeysInOrder(m.Keys), m, KeysInOrder(n.Keys), n);
    forall k ensures k in m <==> k in n {
      assert k in m.Keys <==> k in KeysInOrder(m.Keys);
      assert k in n.Keys <==> k in KeysInOrder(n.Keys);
    }
  }

  lemma FieldsDetermine(d: Stamped, e: Stamped)
    requires Encode(Fields(d)) == Encode(Fields(e))
    ensures d == e
  {
    var a, b := AllDetailFields(d.event.details), AllDetailFields(e.event.details);
    EncodeSplit(FixedFields(d), a, FixedFields(e), b);
    FixedFieldsDetermine(d, e);
    assert a + [] == a && b + [] == b;
    EncodeSplit(a, [], b, []);
    DetailsDetermine(d.event.details, e.event.details);
  }

  lemma FixedFieldsDetermine(d: Stamped, e: Stamped)
    requires FixedFields(d) == FixedFields(e)
    ensures d.event.(details := e.event.details) == e.event
    ensures d.(event := e.event) == e && |d.event.details| == |e.event.details|
  {
    CutEqual(WhenFields(d) + WhoFields(d) + WhatFields(d), [Decimal(|d.event.details|)],
             WhenFields(e) + WhoFields(e) + WhatFields(e), [Decimal(|e.event.details|)]);
    CutEqual(WhenFields(d) + WhoFields(d), WhatFields(d), WhenFields(e) + WhoFields(e), WhatFields(e));
    CutEqual(WhenFields(d), WhoFields(d), WhenFields(e), WhoFields(e));
    assert [Decimal(|d.event.details|)][0] == [Decimal(|e.event.details|)][0];
    WhenDetermines(d, e);
    WhoDetermines(d, e);
    WhatDetermines(d, e);
    DecimalInjective(|d.event.details|, |e.event.details|);
  }

  lemma WhenDetermines(d: Stamped, e: Stamped)
    requires WhenFields(d) == WhenFields(e)
    ensures d.event.tenantId == e.event.tenantId && d.sequence == e.sequence && d.event.eventId == e.event.eventId
    ensures d.event.occurTime == e.event.occurTime && d.recordTime == e.recordTime
  {
    var f, g := WhenFields(d), WhenFields(e);
    assert f[0] == g[0] && f[1] == g[1] && f[2] == g[2] && f[3] == g[3] && f[4] == g[4];
    DecimalInjective(d.sequence, e.sequence);
    DecimalInjective(d.event.occurTime, e.event.occurTime);
    DecimalInjective(d.recordTime, e.recordTime);
  }

  lemma WhoDetermines(d: Stamped, e: Stamped)
    requires WhoFields(d) == WhoFields(e)
    ensures d.event.actorKind == e.event.actorKind && d.event.actorId == e.event.actorId
    ensures d.event.onBehalfOf == e.event.onBehalfOf && d.event.action == e.event.action
    ensures d.event.targetType == e.event.targetType
  {
    var f, g := WhoFields(d), WhoFields(e);
    assert f[0] == g[0] && f[1] == g[1] && f[2] == g[2] && f[3] == g[3] && f[4] == g[4];
  }

  lemma WhatDetermines(d: Stamped, e: Stamped)
    requires WhatFields(d) == WhatFields(e)
    ensures d.event.targetId == e.event.targetId && d.event.outcome == e.event.outcome
    ensures d.event.reason == e.event.reason && d.event.requestId == e.event.requestId && d.source == e.source
  {
    var f, g := WhatFields(d), WhatFields(e);
    assert f[0] == g[0] && f[1] == g[1] && f[2] == g[2] && f[3] == g[3] && f[4] == g[4];
  }

  /** Previous hashes of one length: the hashed bytes determine everything, whatever the fields hold. */
  lemma PreimageDetermines(p: Bytes, d: Stamped, q: Bytes, e: Stamped)
    requires |p| == |q| && Preimage(p, d) == Preimage(q, e)
    ensures p == q && d == e
  {
    CutEqual(DOMAIN + p, Encode(Fields(d)), DOMAIN + q, Encode(Fields(e)));
    CutEqual(DOMAIN, p, DOMAIN, q);
    FieldsDetermine(d, e);
  }

  lemma ShortUvarint(n: nat)
    requires n < 128
    ensures Uvarint(n) == [n as byte]
  {
  }

  lemma PreimageStart(p: Bytes, e: Stamped)
    requires CanonicalId(e.event.tenantId)
    ensures DOMAIN + p + [36] + e.event.tenantId <= Preimage(p, e)
  {
    hide Decimal, AllDetailFields, Uvarint;
    assert Uvarint(36) == [36] by { ShortUvarint(36); }
    var fields := Fields(e);
    assert fields[0] == e.event.tenantId;
    assert Encode(fields) == [36] + e.event.tenantId + Encode(fields[1..]);
    assert Preimage(p, e) == DOMAIN + p + [36] + e.event.tenantId + Encode(fields[1..]);
  }

  /** A first link is never read as a later one: where the tenant id's length
      byte would stand after 32 bytes, the first link has a tenant id character. */
  lemma FirstLinkIsNotLater(d: Stamped, q: Bytes, e: Stamped)
    requires CanonicalId(d.event.tenantId) && CanonicalId(e.event.tenantId) && |q| == 32
    ensures Preimage([], d) != Preimage(q, e)
  {
    PreimageStart([], d);
    PreimageStart(q, e);
    var i := |DOMAIN| + 32;
    assert (DOMAIN + [] + [36] + d.event.tenantId)[i] == d.event.tenantId[31];
    assert (DOMAIN + q + [36] + e.event.tenantId)[i] == 36;
  }

  /** The hashed bytes determine the previous hash, which is not length-prefixed, and every field. */
  lemma HashedBytesDetermine(p: Bytes, d: Stamped, q: Bytes, e: Stamped)
    requires PreviousHash(p) && PreviousHash(q)
    requires CanonicalId(d.event.tenantId) && CanonicalId(e.event.tenantId)
    ensures Preimage(p, d) == Preimage(q, e) ==> p == q && d == e
  {
    if |p| < |q| {
      assert p == [];
      FirstLinkIsNotLater(d, q, e);
    } else if |q| < |p| {
      assert q == [];
      FirstLinkIsNotLater(e, p, d);
    } else if Preimage(p, d) == Preimage(q, e) {
      PreimageDetermines(p, d, q, e);
    }
  }

  /** The chain's link is the hash that is computed. */
  lemma HashIsLink(h: Digest, prev: Bytes, e: Stamped)
    ensures Link(ChainHashing(h), prev, e) == h(Preimage(prev, e))
  {
    hide Preimage;
  }

  /** The chain's hashing is one the trail's guarantees hold for. */
  lemma ChainHashingDetermines(h: Digest)
    ensures Digests(ChainHashing(h)) && Determines(ChainHashing(h))
  {
    hide Preimage, CanonicalId;
    var c := ChainHashing(h);
    forall p, d: Stamped, q, e: Stamped |
      && PreviousHash(p) && PreviousHash(q)
      && CanonicalId(d.event.tenantId) && CanonicalId(e.event.tenantId)
      && c.encode(p, d) == c.encode(q, e)
      ensures p == q && d == e
    {
      HashedBytesDetermine(p, d, q, e);
    }
  }
}
