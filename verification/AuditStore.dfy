/** The audit database: appending to the tenants' chains, and verifying a
    chain whose stored rows anyone may have changed. */
module AuditStore {
  import opened ByteStrings
  import opened Options
  import opened AuditEvents

  datatype Row = Row(stamped: Stamped, prevHash: Bytes, hash: Bytes)

  datatype Head = Head(sequence: int, hash: Bytes)

  predicate HasId(rows: seq<Row>, id: Bytes) {
    exists r | r in rows :: r.stamped.event.eventId == id
  }

  function LastHash(rows: seq<Row>): Bytes {
    if rows == [] then [] else rows[|rows| - 1].hash
  }

  function HeadOf(rows: seq<Row>): Head {
    Head(|rows|, LastHash(rows))
  }

  function ForTenant(events: seq<Event>, tenant: Bytes): (r: seq<Event>)
    ensures forall e | e in r :: e.tenantId == tenant
  {
    if events == [] then []
    else
      var init, last := events[..|events| - 1], events[|events| - 1];
      ForTenant(init, tenant) + if last.tenantId == tenant then [last] else []
  }

  // ----- what appending means -----

  ghost function NextRow(c: Hashing, rows: seq<Row>, e: Event, source: Bytes, time: int): Row {
    var s := Stamped(e, |rows| + 1, time, source);
    Row(s, LastHash(rows), Link(c, LastHash(rows), s))
  }

  /** A tenant's rows after a batch: events not yet recorded, in order, each linked to the row before it. */
  ghost function Appended(c: Hashing, rows: seq<Row>, events: seq<Event>, source: Bytes, time: int): (r: seq<Row>)
    ensures rows <= r
  {
    if events == [] then rows
    else
      var before := Appended(c, rows, events[..|events| - 1], source, time);
      var e := events[|events| - 1];
      if HasId(before, e.eventId) then before else before + [NextRow(c, before, e, source, time)]
  }

  /** Row `i` of an intact chain. */
  ghost predicate RowIntact(c: Hashing, tenant: Bytes, rows: seq<Row>, i: nat)
    requires i < |rows|
  {
    && rows[i].stamped.event.tenantId == tenant
    && rows[i].stamped.sequence == i + 1
    && rows[i].prevHash == LastHash(rows[..i])
    && rows[i].hash == Link(c, rows[i].prevHash, rows[i].stamped)
  }

  ghost predicate Intact(c: Hashing, tenant: Bytes, rows: seq<Row>) {
    && CanonicalId(tenant)
    && (forall i | 0 <= i < |rows| :: RowIntact(c, tenant, rows, i))
    && (forall i, j | 0 <= i < j < |rows| :: rows[i].stamped.event.eventId != rows[j].stamped.event.eventId)
  }

  lemma IntactExtends(c: Hashing, tenant: Bytes, rows: seq<Row>, e: Event, source: Bytes, time: int)
    requires Intact(c, tenant, rows) && e.tenantId == tenant && !HasId(rows, e.eventId)
    ensures Intact(c, tenant, rows + [NextRow(c, rows, e, source, time)])
  {
    var r := rows + [NextRow(c, rows, e, source, time)];
    forall i | 0 <= i < |r| ensures RowIntact(c, tenant, r, i) {
      assert r[..i] == rows[..i];
      if i < |rows| {
        assert RowIntact(c, tenant, rows, i);
      } else {
        assert rows[..i] == rows;
      }
    }
    forall i, j | 0 <= i < j < |r|
      ensures r[i].stamped.event.eventId != r[j].stamped.event.eventId
    {
      assert r[i] in rows;
    }
  }

  /** Appending keeps a chain intact: sequences 1 to N, linked, no event twice. */
  lemma {:induction false} AppendedIntact(c: Hashing, tenant: Bytes, rows: seq<Row>, events: seq<Event>, source: Bytes, time: int)
    requires Intact(c, tenant, rows) && forall e | e in events :: e.tenantId == tenant
    ensures Intact(c, tenant, Appended(c, rows, events, source, time))
  {
    if events != [] {
      var init, last := events[..|events| - 1], events[|events| - 1];
      AppendedIntact(c, tenant, rows, init, source, time);
      assert last in events;
      var before := Appended(c, rows, init, source, time);
      if !HasId(before, last.eventId) {
        IntactExtends(c, tenant, before, last, source, time);
      }
    }
  }

  // ----- the store -----

  /** The first event of the batch with its id. */
  ghost predicate FirstOfItsId(events: seq<Event>, k: int) {
    0 <= k < |events| && forall j | 0 <= j < k :: events[j].eventId != events[k].eventId
  }

  /** The row holds an event of the batch, the first of its id and new, stamped with the caller and the time of recording. */
  ghost predicate StampedFrom(rows: seq<Row>, events: seq<Event>, source: Bytes, time: int, row: Row) {
    && row.stamped.source == source && row.stamped.recordTime == time
    && exists k :: FirstOfItsId(events, k) && events[k] == row.stamped.event && !HasId(rows, events[k].eventId)
  }

  lemma StampedBefore(rows: seq<Row>, events: seq<Event>, n: nat, source: Bytes, time: int, row: Row)
    requires n <= |events| && StampedFrom(rows, events[..n], source, time, row)
    ensures StampedFrom(rows, events, source, time, row)
  {
    hide HasId;
    var init := events[..n];
    var k :| FirstOfItsId(init, k) && init[k] == row.stamped.event && !HasId(rows, init[k].eventId);
    assert FirstOfItsId(events, k);
  }

  lemma {:induction false} AppendedRowsAreStamped(c: Hashing, rows: seq<Row>, events: seq<Event>, source: Bytes, time: int, i: int)
    requires |rows| <= i < |Appended(c, rows, events, source, time)|
    ensures StampedFrom(rows, events, source, time, Appended(c, rows, events, source, time)[i])
  {
    if events != [] {
      var n := |events| - 1;
      var before := Appended(c, rows, events[..n], source, time);
      if i < |before| {
        hide HasId, StampedFrom;
        AppendedRowsAreStamped(c, rows, events[..n], source, time, i);
        StampedBefore(rows, events, n, source, time, before[i]);
      } else {
        NewRowIsStamped(c, rows, events, source, time);
      }
    }
  }

  lemma NewRowIsStamped(c: Hashing, rows: seq<Row>, events: seq<Event>, source: Bytes, time: int)
    requires events != []
    ensures var n := |events| - 1;
            var before := Appended(c, rows, events[..n], source, time);
            !HasId(before, events[n].eventId) ==> StampedFrom(rows, events, source, time, NextRow(c, before, events[n], source, time))
  {
    hide HasId, Appended;
    var n := |events| - 1;
    var before := Appended(c, rows, events[..n], source, time);
    if !HasId(before, events[n].eventId) {
      forall j | 0 <= j < n ensures events[j].eventId != events[n].eventId {
        EveryEventIsThere(c, rows, events[..n], source, time, j);
      }
      assert FirstOfItsId(events, n);
      OldIdsStay(c, rows, events[..n], source, time, events[n].eventId);
    }
  }

  lemma OldIdsStay(c: Hashing, rows: seq<Row>, events: seq<Event>, source: Bytes, time: int, id: Bytes)
    ensures HasId(rows, id) ==> HasId(Appended(c, rows, events, source, time), id)
  {
    var r := Appended(c, rows, events, source, time);
    assert r[..|rows|] == rows && forall x | x in rows :: x in r;
  }

  /** Every event of the batch is there afterwards, by its id. */
  lemma {:induction false} EveryEventIsThere(c: Hashing, rows: seq<Row>, events: seq<Event>, source: Bytes, time: int, j: int)
    requires 0 <= j < |events|
    ensures HasId(Appended(c, rows, events, source, time), events[j].eventId)
  {
    var n := |events| - 1;
    AppendedStep(c, rows, events, n, source, time);
    assert events[..n + 1] == events;
    var before := Appended(c, rows, events[..n], source, time);
    if j < n {
      EveryEventIsThere(c, rows, events[..n], source, time, j);
    }
    if !HasId(before, events[n].eventId) {
      HasIdSnoc(before, NextRow(c, before, events[n], source, time), events[j].eventId);
    }
  }

  lemma HasIdSnoc(rows: seq<Row>, r: Row, id: Bytes)
    ensures HasId(rows + [r], id) <==> HasId(rows, id) || r.stamped.event.eventId == id
  {
    assert forall x :: x in rows + [r] <==> x in rows || x == r;
  }

  lemma AppendedStep(c: Hashing, rows: seq<Row>, events: seq<Event>, i: nat, source: Bytes, time: int)
    requires i < |events|
    ensures var before := Appended(c, rows, events[..i], source, time);
            Appended(c, rows, events[..i + 1], source, time)
            == if HasId(before, events[i].eventId) then before else before + [NextRow(c, before, events[i], source, time)]
  {
    assert events[..i + 1][..i] == events[..i];
  }

  /** One tenant's part of an Append transaction, on the rows and head it has locked. */
  method AppendTenant(c: Hashing, head: Head, rows: seq<Row>, source: Bytes, recordTime: int, events: seq<Event>)
    returns (newHead: Head, newRows: seq<Row>, recorded: nat, duplicates: nat)
    requires head == HeadOf(rows)
    ensures newRows == Appended(c, rows, events, source, recordTime)
    ensures newHead == HeadOf(newRows)
    ensures recorded == |newRows| - |rows| && recorded + duplicates == |events|
  {
    hide HasId, Appended;
    var sequence, prev := head.sequence, head.hash;
    newRows, recorded, duplicates := rows, 0, 0;
    var seen := StoredIds(rows, events);
    AppendedNone(c, rows, source, recordTime);
    assert events[..0] == [];
    for i := 0 to |events|
      invariant newRows == Appended(c, rows, events[..i], source, recordTime)
      invariant Head(sequence, prev) == HeadOf(newRows)
      invariant recorded == |newRows| - |rows| && recorded + duplicates == i
      invariant forall e | e in events :: e.eventId in seen <==> HasId(newRows, e.eventId)
    {
      var e := events[i];
      AppendedStep(c, rows, events, i, source, recordTime);
      if e.eventId in seen {
        duplicates := duplicates + 1;
      } else {
        seen := seen + {e.eventId};
        sequence := sequence + 1;
        var stamped := Stamped(e, sequence, recordTime, source);
        var hash := Link(c, prev, stamped);
        var row := Row(stamped, prev, hash);
        forall d | d in events ensures HasId(newRows + [row], d.eventId) <==> HasId(newRows, d.eventId) || e.eventId == d.eventId {
          HasIdSnoc(newRows, row, d.eventId);
        }
        newRows := newRows + [row];
        prev := hash;
        recorded := recorded + 1;
      }
    }
    assert events[..|events|] == events;
    newHead := if recorded == 0 then head else Head(sequence, prev);
  }

  lemma AppendedNone(c: Hashing, rows: seq<Row>, source: Bytes, time: int)
    ensures Appended(c, rows, [], source, time) == rows
  {
  }

  /** The batch's ids that are already stored. */
  function StoredIds(rows: seq<Row>, events: seq<Event>): (seen: set<Bytes>)
    ensures forall e | e in events :: e.eventId in seen <==> HasId(rows, e.eventId)
  {
    var ids := set e | e in events :: e.eventId;
    set r | r in rows && r.stamped.event.eventId in ids :: r.stamped.event.eventId
  }

  function RowsIn(events: map<Bytes, seq<Row>>, tenant: Bytes): seq<Row> {
    if tenant in events then events[tenant] else []
  }

  /** Every tenant's chain is intact and its head is the chain's last row. */
  ghost predicate IntactTables(c: Hashing, chains: map<Bytes, Head>, events: map<Bytes, seq<Row>>) {
    && chains.Keys == events.Keys
    && forall t | t in chains :: Intact(c, t, events[t]) && chains[t] == HeadOf(events[t])
  }

  method GroupByTenant(batch: seq<Event>) returns (groups: map<Bytes, seq<Event>>)
    ensures forall t :: ForTenant(batch, t) == if t in groups then groups[t] else []
    ensures forall t | t in groups :: groups[t] != []
    ensures Total(groups) == |batch|
  {
    hide Total, ForTenant;
    groups := map[];
    TotalEmpty(groups);
    forall t ensures ForTenant(batch[..0], t) == [] { ForTenantNone(batch, t); }
    for i := 0 to |batch|
      invariant forall t :: ForTenant(batch[..i], t) == if t in groups then groups[t] else []
      invariant forall t | t in groups :: groups[t] != []
      invariant Total(groups) == i
    {
      var e := batch[i];
      var known := if e.tenantId in groups then groups[e.tenantId] else [];
      forall t ensures ForTenant(batch[..i + 1], t) == ForTenant(batch[..i], t) + if e.tenantId == t then [e] else [] {
        ForTenantStep(batch, i, t);
      }
      TotalUpdate(groups, e.tenantId, known + [e]);
      groups := groups[e.tenantId := known + [e]];
    }
    assert batch[..|batch|] == batch;
  }

  /** The body of an Append transaction: each tenant's chain in turn (the result does not depend on the order). */
  method AppendGroups(c: Hashing, chains: map<Bytes, Head>, events: map<Bytes, seq<Row>>,
                      groups: map<Bytes, seq<Event>>, source: Bytes, now: int)
    returns (newChains: map<Bytes, Head>, newEvents: map<Bytes, seq<Row>>, recorded: nat, duplicates: nat)
    requires IntactTables(c, chains, events)
    requires forall t | t in groups :: CanonicalId(t) && forall e | e in groups[t] :: e.tenantId == t
    ensures IntactTables(c, newChains, newEvents)
    ensures forall t :: RowsIn(newEvents, t)
              == if t in groups then Appended(c, RowsIn(events, t), groups[t], source, now) else RowsIn(events, t)
    ensures recorded + duplicates == Total(groups)
    ensures recorded == 0 <==> forall t :: RowsIn(newEvents, t) == RowsIn(events, t)
  {
    hide CanonicalId, Appended, Total, IntactTables, RowsIn;
    newChains, newEvents, recorded, duplicates := chains, events, 0, 0;
    var todo := groups;
    ghost var changed: set<Bytes> := {};
    while todo.Keys != {}
      invariant todo.Keys <= groups.Keys && forall t | t in todo :: todo[t] == groups[t]
      invariant IntactTables(c, newChains, newEvents)
      invariant forall t :: RowsIn(newEvents, t)
                  == if t in groups && t !in todo then Appended(c, RowsIn(events, t), groups[t], source, now)
                     else RowsIn(events, t)
      invariant recorded + duplicates + Total(todo) == Total(groups)
      invariant recorded == 0 <==> changed == {}
      invariant forall t :: t in changed <==> RowsIn(newEvents, t) != RowsIn(events, t)
      decreases todo.Keys
    {
      var t :| t in todo;
      var r, d;
      newChains, newEvents, r, d := AppendOne(c, newChains, newEvents, t, todo[t], source, now);
      recorded, duplicates := recorded + r, duplicates + d;
      changed := changed + if r == 0 then {} else {t};
      TotalRemove(todo, t);
      todo := todo - {t};
    }
    TotalEmpty(todo);
  }

  /** Locks a tenant's chain (creating it when it is new) and appends to it. */
  method AppendOne(c: Hashing, chains: map<Bytes, Head>, events: map<Bytes, seq<Row>>, t: Bytes,
                   batch: seq<Event>, source: Bytes, now: int)
    returns (newChains: map<Bytes, Head>, newEvents: map<Bytes, seq<Row>>, recorded: nat, duplicates: nat)
    requires IntactTables(c, chains, events) && CanonicalId(t) && forall e | e in batch :: e.tenantId == t
    ensures IntactTables(c, newChains, newEvents)
    ensures RowsIn(newEvents, t) == Appended(c, RowsIn(events, t), batch, source, now)
    ensures forall u | u != t :: RowsIn(newEvents, u) == RowsIn(events, u)
    ensures recorded + duplicates == |batch| && (recorded == 0 <==> RowsIn(newEvents, t) == RowsIn(events, t))
  {
    hide CanonicalId, HasId;
    var known := if t in chains then chains[t] else Head(0, []);
    AppendedIntact(c, t, RowsIn(events, t), batch, source, now);
    var head, rows;
    head, rows, recorded, duplicates := AppendTenant(c, known, RowsIn(events, t), source, now, batch);
    newChains, newEvents := chains[t := head], events[t := rows];
  }

  /** The tables `chains` and `events`; a tenant's rows are in primary key order. */
  class Store {
    const c: Hashing
    var chains: map<Bytes, Head>
    var events: map<Bytes, seq<Row>>

    ghost predicate Valid()
      reads this
    {
      IntactTables(c, chains, events)
    }

    constructor (c: Hashing)
      ensures Valid() && chains == map[] && this.c == c
    {
      this.c := c;
      chains, events := map[], map[];
    }

    /** Appends a batch in one transaction; `commits` is whether the database commits it. */
    method Append(source: Bytes, batch: seq<Event>, now: int, commits: bool)
      returns (ok: bool, recorded: nat, duplicates: nat)
      requires Valid() && forall e | e in batch :: CanonicalId(e.tenantId)
      modifies this
      ensures Valid() && ok == commits
      ensures !ok ==> unchanged(this)
      ensures ok ==> forall t ::
          RowsIn(events, t) == Appended(c, RowsIn(old(events), t), ForTenant(batch, t), source, now)
      ensures ok ==> recorded + duplicates == |batch|
      ensures ok ==> (recorded == 0 <==> forall t :: RowsIn(events, t) == RowsIn(old(events), t))
    {
      hide CanonicalId, HasId;
      var groups := GroupByTenant(batch);
      forall t: Bytes | t in groups
        ensures CanonicalId(t) && forall e: Event | e in groups[t] :: e.tenantId == t
      {
        assert groups[t] == ForTenant(batch, t);
        assert groups[t][0] in ForTenant(batch, t);
        ForTenantSubset(batch, t, groups[t][0]);
      }
      var newChains, newEvents;
      newChains, newEvents, recorded, duplicates := AppendGroups(c, chains, events, groups, source, now);
      forall t ensures RowsIn(newEvents, t) == Appended(c, RowsIn(events, t), ForTenant(batch, t), source, now) {
        AppendedNone(c, RowsIn(events, t), source, now);
      }
      ok := commits;
      if commits {
        chains, events := newChains, newEvents;
      }
    }
  }

  lemma ForTenantNone(events: seq<Event>, tenant: Bytes)
    ensures ForTenant(events[..0], tenant) == []
  {
  }

  lemma ForTenantStep(events: seq<Event>, i: nat, tenant: Bytes)
    requires i < |events|
    ensures ForTenant(events[..i + 1], tenant)
            == ForTenant(events[..i], tenant) + if events[i].tenantId == tenant then [events[i]] else []
  {
    assert events[..i + 1][..i] == events[..i];
  }

  lemma ForTenantSubset(events: seq<Event>, tenant: Bytes, e: Event)
    requires e in ForTenant(events, tenant)
    ensures e in events
  {
  }

  /** How many events a grouping holds. */
  ghost function Total(groups: map<Bytes, seq<Event>>): nat {
    if groups.Keys == {} then 0
    else
      var t :| t in groups;
      |groups[t]| + Total(groups - {t})
  }

  lemma TotalEmpty(groups: map<Bytes, seq<Event>>)
    requires groups.Keys == {}
    ensures Total(groups) == 0
  {
  }

  lemma {:induction false} TotalRemove(groups: map<Bytes, seq<Event>>, t: Bytes)
    requires t in groups
    ensures Total(groups) == |groups[t]| + Total(groups - {t})
    decreases groups.Keys
  {
    var u :| u in groups && Total(groups) == |groups[u]| + Total(groups - {u});
    if u != t {
      TotalRemove(groups - {u}, t);
      TotalRemove(groups - {t}, u);
      assert groups - {u} - {t} == groups - {t} - {u};
    }
  }

  lemma TotalUpdate(groups: map<Bytes, seq<Event>>, t: Bytes, events: seq<Event>)
    ensures Total(groups[t := events]) == Total(groups) - (if t in groups then |groups[t]| else 0) + |events|
  {
    TotalRemove(groups[t := events], t);
    if t in groups {
      TotalRemove(groups, t);
    } else {
      assert groups - {t} == groups;
    }
    assert groups[t := events] - {t} == groups - {t};
  }

  // ----- verifying -----

  /** What the database's constraints promise of any stored rows: sequences from 1, in
      primary key order, and uuid columns. Everything else may have been changed. */
  ghost predicate Stored(rows: seq<Row>) {
    && (forall i | 0 <= i < |rows| :: rows[i].stamped.sequence >= 1 && CanonicalId(rows[i].stamped.event.tenantId))
    && (forall i, j | 0 <= i < j < |rows| :: rows[i].stamped.sequence < rows[j].stamped.sequence)
  }

  /** The chain recomputed over the first `k` rows. */
  ghost function Recomputed(c: Hashing, rows: seq<Row>, k: nat): Bytes
    requires k <= |rows|
  {
    if k == 0 then [] else Link(c, Recomputed(c, rows, k - 1), rows[k - 1].stamped)
  }

  /** Position `s` holds its event, linked as the chain up to it demands. */
  ghost predicate Sound(c: Hashing, rows: seq<Row>, s: int) {
    && 1 <= s <= |rows|
    && rows[s - 1].stamped.sequence == s
    && rows[s - 1].prevHash == Recomputed(c, rows, s - 1)
    && rows[s - 1].hash == Recomputed(c, rows, s)
  }

  ghost predicate AllSound(c: Hashing, rows: seq<Row>, k: nat) {
    forall s | 1 <= s <= k :: Sound(c, rows, s)
  }

  /** The least missing or mislinked position. */
  ghost predicate FirstUnsound(c: Hashing, rows: seq<Row>, s: int) {
    s >= 1 && !Sound(c, rows, s) && AllSound(c, rows, s - 1)
  }

  ghost predicate Verifies(c: Hashing, rows: seq<Row>, head: Head) {
    AllSound(c, rows, |rows|) && head == Head(|rows|, Recomputed(c, rows, |rows|))
  }

  datatype Verification = Verification(intact: bool, events: int, firstBroken: int, head: Bytes)

  const VERIFY_PAGE: nat := 1000

  function LastSequence(rows: seq<Row>): int {
    if rows == [] then 0 else rows[|rows| - 1].stamped.sequence
  }

  /** `sequence > after ORDER BY sequence`. */
  function After(rows: seq<Row>, after: int): seq<Row> {
    if rows == [] then []
    else (if rows[0].stamped.sequence > after then [rows[0]] else []) + After(rows[1..], after)
  }

  lemma {:induction false} AfterIsRest(rows: seq<Row>, k: nat, after: int)
    requires k <= |rows| && forall i | 0 <= i < |rows| :: rows[i].stamped.sequence > after <==> i >= k
    ensures After(rows, after) == rows[k..]
  {
    if rows != [] {
      AfterIsRest(rows[1..], if k == 0 then 0 else k - 1, after);
    }
  }

  /** What Verify knows after `k` rows. */
  ghost predicate Checked(c: Hashing, rows: seq<Row>, k: nat, prev: Bytes, v: Verification) {
    && k <= |rows|
    && v.events == LastSequence(rows[..k])
    && prev == Recomputed(c, rows, k)
    && (v.intact <==> AllSound(c, rows, k))
    && if v.intact then v.firstBroken == 0 else FirstUnsound(c, rows, v.firstBroken)
  }

  lemma SoundUpTo(c: Hashing, rows: seq<Row>, k: nat)
    requires k < |rows|
    ensures AllSound(c, rows, k + 1) <==> AllSound(c, rows, k) && Sound(c, rows, k + 1)
    ensures AllSound(c, rows, k) ==> LastSequence(rows[..k]) == k
  {
    assert AllSound(c, rows, k) && k > 0 ==> Sound(c, rows, k);
  }

  method VerifyRow(c: Hashing, r: Row, before: Bytes, known: Verification, ghost rows: seq<Row>, ghost k: nat)
    returns (prev: Bytes, v: Verification)
    requires k < |rows| && r == rows[k] && Checked(c, rows, k, before, known)
    ensures Checked(c, rows, k + 1, prev, v)
  {
    SoundUpTo(c, rows, k);
    prev, v := before, known;
    var expected := v.events + 1;
    if r.stamped.sequence != expected && v.intact {
      v := v.(intact := false, firstBroken := expected);
    }
    var computed := Link(c, prev, r.stamped);
    if (r.prevHash != prev || r.hash != computed) && v.intact {
      v := v.(intact := false, firstBroken := r.stamped.sequence);
    }
    prev := computed;
    v := v.(events := r.stamped.sequence);
  }

  lemma AllSoundLast(c: Hashing, rows: seq<Row>)
    ensures AllSound(c, rows, |rows|) ==> LastSequence(rows) == |rows|
  {
    assert AllSound(c, rows, |rows|) && |rows| > 0 ==> Sound(c, rows, |rows|);
  }

  lemma CheckedStart(c: Hashing, rows: seq<Row>)
    ensures Checked(c, rows, 0, [], Verification(true, 0, 0, []))
  {
  }

  lemma CheckedRest(c: Hashing, rows: seq<Row>, k: nat, prev: Bytes, v: Verification)
    requires Stored(rows) && Checked(c, rows, k, prev, v)
    ensures k <= |rows| && After(rows, v.events) == rows[k..]
  {
    hide Recomputed, AllSound, FirstUnsound, CanonicalId;
    AfterIsRest(rows, k, v.events);
  }

  lemma CheckedAll(c: Hashing, rows: seq<Row>, k: nat, prev: Bytes, v: Verification)
    requires Checked(c, rows, k, prev, v) && k == |rows|
    ensures v.events == LastSequence(rows) && prev == Recomputed(c, rows, |rows|)
    ensures v.intact <==> AllSound(c, rows, |rows|)
    ensures if v.intact then v.firstBroken == 0 && v.events == |rows| else FirstUnsound(c, rows, v.firstBroken)
    ensures v.intact ==> FirstUnsound(c, rows, |rows| + 1)
  {
    assert rows[..k] == rows;
    AllSoundLast(c, rows);
  }

  /** Recomputes a chain, page by page, from rows and head as stored (no head row: an empty chain). */
  method Verify(c: Hashing, stored: Option<Head>, rows: seq<Row>) returns (v: Verification)
    requires Stored(rows)
    ensures v.intact <==> Verifies(c, rows, if stored.Some? then stored.value else Head(0, []))
    ensures if v.intact then v.firstBroken == 0 else FirstUnsound(c, rows, v.firstBroken)
    ensures v.events == LastSequence(rows) && v.head == Recomputed(c, rows, |rows|)
  {
    hide Checked, FirstUnsound, AllSound, Recomputed, Stored, After;
    var head := if stored.Some? then stored.value else Head(0, []);
    var prev: Bytes := [];
    v := Verification(true, 0, 0, []);
    ghost var k := 0;
    CheckedStart(c, rows);
    while true
      invariant k <= |rows| && Checked(c, rows, k, prev, v)
      decreases |rows| - k
    {
      ghost var start := k;
      CheckedRest(c, rows, k, prev, v);
      var rest := After(rows, v.events);
      var page := if |rest| > VERIFY_PAGE then rest[..VERIFY_PAGE] else rest;
      for n := 0 to |page|
        invariant k == start + n && Checked(c, rows, k, prev, v)
      {
        prev, v := VerifyRow(c, page[n], prev, v, rows, k);
        k := k + 1;
      }
      if |page| < VERIFY_PAGE {
        break;
      }
    }
    CheckedAll(c, rows, k, prev, v);
    if (head.sequence != v.events || head.hash != prev) && v.intact {
      v := v.(intact := false, firstBroken := v.events + 1);
    }
    v := v.(head := prev);
  }

  lemma {:induction false} RecomputedAgrees(c: Hashing, a: seq<Row>, b: seq<Row>, k: nat)
    requires k <= |a| && k <= |b| && a[..k] == b[..k]
    ensures Recomputed(c, a, k) == Recomputed(c, b, k)
  {
    if k > 0 {
      assert a[..k - 1] == a[..k][..k - 1] && b[..k - 1] == b[..k][..k - 1];
      assert a[..k][k - 1] == a[k - 1] && b[..k][k - 1] == b[k - 1];
      RecomputedAgrees(c, a, b, k - 1);
    }
  }

  lemma {:induction false} IntactRecomputes(c: Hashing, tenant: Bytes, rows: seq<Row>, k: nat)
    requires Intact(c, tenant, rows) && k <= |rows|
    ensures Recomputed(c, rows, k) == LastHash(rows[..k])
    ensures AllSound(c, rows, k)
  {
    if k > 0 {
      IntactRecomputes(c, tenant, rows, k - 1);
      assert RowIntact(c, tenant, rows, k - 1);
      assert Sound(c, rows, k);
    }
  }

  /** What Append leaves always verifies. */
  lemma IntactVerifies(c: Hashing, tenant: Bytes, rows: seq<Row>)
    requires Intact(c, tenant, rows)
    ensures Stored(rows) && Verifies(c, rows, HeadOf(rows))
  {
    IntactRecomputes(c, tenant, rows, |rows|);
    assert rows[..|rows|] == rows;
    forall i | 0 <= i < |rows| ensures rows[i].stamped.sequence == i + 1 && CanonicalId(rows[i].stamped.event.tenantId) {
      assert RowIntact(c, tenant, rows, i);
    }
  }

  /** A break is never reported inside a prefix that was left as appended. */
  lemma BreakIsPastUntouchedPrefix(c: Hashing, tenant: Bytes, appended: seq<Row>, rows: seq<Row>, k: nat, s: int)
    requires Intact(c, tenant, appended) && k <= |appended| && k <= |rows| && rows[..k] == appended[..k]
    requires FirstUnsound(c, rows, s)
    ensures s > k
  {
    forall p | 1 <= p <= k ensures Sound(c, rows, p) {
      IntactRecomputes(c, tenant, appended, p);
      assert Sound(c, appended, p);
      assert rows[..k][p - 1] == rows[p - 1] && appended[..k][p - 1] == appended[p - 1];
      assert rows[..k][..p] == rows[..p] && appended[..k][..p] == appended[..p];
      assert rows[..p][..p - 1] == rows[..p - 1] && appended[..p][..p - 1] == appended[..p - 1];
      RecomputedAgrees(c, rows, appended, p);
      RecomputedAgrees(c, rows, appended, p - 1);
    }
  }

  /** The `k`th rows from the end of two chains hash different bytes to one value. */
  ghost predicate Collides(c: Hashing, a: seq<Row>, b: seq<Row>, k: nat) {
    && 1 <= k <= |a| && k <= |b|
    && var x, y := a[|a| - k], b[|b| - k];
    && c.encode(x.prevHash, x.stamped) != c.encode(y.prevHash, y.stamped)
    && c.digest(c.encode(x.prevHash, x.stamped)) == c.digest(c.encode(y.prevHash, y.stamped))
  }

  lemma SoundInit(c: Hashing, rows: seq<Row>)
    requires rows != [] && AllSound(c, rows, |rows|)
    ensures AllSound(c, rows[..|rows| - 1], |rows| - 1)
    ensures Recomputed(c, rows[..|rows| - 1], |rows| - 1) == rows[|rows| - 1].prevHash
  {
    var init := rows[..|rows| - 1];
    forall s | 1 <= s <= |init| ensures Sound(c, init, s) {
      assert Sound(c, rows, s);
      assert init[..s] == rows[..s] && init[..s - 1] == rows[..s - 1];
      RecomputedAgrees(c, init, rows, s);
      RecomputedAgrees(c, init, rows, s - 1);
    }
    assert Sound(c, rows, |rows|);
    assert init[..|init|] == rows[..|init|];
    RecomputedAgrees(c, init, rows, |init|);
  }

  /** Last rows with one hash hold one event after one previous hash, or they collide. */
  lemma LastRowsAgree(c: Hashing, a: seq<Row>, b: seq<Row>)
    requires Digests(c) && Determines(c) && Stored(a) && Stored(b) && a != [] && b != []
    requires Sound(c, a, |a|) && Sound(c, b, |b|) && Recomputed(c, a, |a|) == Recomputed(c, b, |b|)
    ensures Collides(c, a, b, 1) || a[|a| - 1] == b[|b| - 1]
  {
    RecomputedLength(c, a, |a| - 1);
    RecomputedLength(c, b, |b| - 1);
  }

  lemma RecomputedLength(c: Hashing, rows: seq<Row>, k: nat)
    requires Digests(c) && k <= |rows|
    ensures |Recomputed(c, rows, k)| == if k == 0 then 0 else 32
  {
  }

  /** Two chains that verify with one head hash are the same rows, or show a hash collision. */
  lemma {:induction false} OneHeadOneChain(c: Hashing, a: seq<Row>, b: seq<Row>)
    requires Digests(c) && Determines(c)
    requires Stored(a) && Stored(b) && AllSound(c, a, |a|) && AllSound(c, b, |b|)
    requires Recomputed(c, a, |a|) == Recomputed(c, b, |b|)
    ensures a == b || exists k: nat :: Collides(c, a, b, k)
    decreases |a|
  {
    hide Digests, Determines, Recomputed;
    RecomputedLength(c, a, |a|);
    RecomputedLength(c, b, |b|);
    if a != [] {
      var i, j := |a| - 1, |b| - 1;
      assert Sound(c, a, |a|) && Sound(c, b, |b|);
      LastRowsAgree(c, a, b);
      if !Collides(c, a, b, 1) {
        SoundInit(c, a);
        SoundInit(c, b);
        OneHeadOneChain(c, a[..i], b[..j]);
        if a[..i] == b[..j] {
          assert a == a[..i] + [a[i]] && b == b[..j] + [b[j]];
        } else {
          var k: nat :| Collides(c, a[..i], b[..j], k);
          assert a[..i][i - k] == a[|a| - (k + 1)] && b[..j][j - k] == b[|b| - (k + 1)];
          assert Collides(c, a, b, k + 1);
        }
      }
    }
  }

  /** Tamper evidence: stored rows that verify, with the head hash Append left, are the appended rows, or they show a collision. */
  lemma TamperEvident(c: Hashing, tenant: Bytes, appended: seq<Row>, rows: seq<Row>, head: Head)
    requires Digests(c) && Determines(c)
    requires Intact(c, tenant, appended)
    requires Stored(rows) && Verifies(c, rows, head) && head.hash == LastHash(appended)
    ensures rows == appended || exists k: nat :: Collides(c, rows, appended, k)
  {
    IntactVerifies(c, tenant, appended);
    OneHeadOneChain(c, rows, appended);
  }
}

/** The chain's own hashing in place of any: what is proved of every hashing holds of the service's trail. */
module AuditTrail {
  import opened ByteStrings
  import opened AuditChain
  import opened AuditStore

  /** Two stored rows hash different bytes to one SHA-256 value. */
  ghost predicate DigestCollides(h: Digest, x: Row, y: Row) {
    && Preimage(x.prevHash, x.stamped) != Preimage(y.prevHash, y.stamped)
    && h(Preimage(x.prevHash, x.stamped)) == h(Preimage(y.prevHash, y.stamped))
  }

  /** Stored rows that verify with the head hash Append left are the appended rows, or two given rows collide. */
  lemma TrailIsTamperEvident(h: Digest, tenant: Bytes, appended: seq<Row>, rows: seq<Row>, head: Head)
    requires Intact(ChainHashing(h), tenant, appended)
    requires Stored(rows) && Verifies(ChainHashing(h), rows, head) && head.hash == LastHash(appended)
    ensures rows == appended || exists i, j | 0 <= i < |rows| && 0 <= j < |appended| :: DigestCollides(h, rows[i], appended[j])
  {
    hide Preimage, Intact, Verifies, Stored;
    ChainHashingDetermines(h);
    TamperEvident(ChainHashing(h), tenant, appended, rows, head);
    if rows != appended {
      var k: nat :| Collides(ChainHashing(h), rows, appended, k);
      assert DigestCollides(h, rows[|rows| - k], appended[|appended| - k]);
    }
  }
}

/** The service's Record call: a batch is recorded whole or not at all. */
module AuditServer {
  import opened ByteStrings
  import opened Options
  import opened AuditEvents
  import opened AuditStore

  datatype Answer = Recorded(recorded: nat, duplicates: nat) | InvalidArgument | Internal

  /** What the service reads in a batch, if it can read all of it. */
  function ReadAll<Raw>(read: Raw -> Option<Event>, batch: seq<Raw>): (events: seq<Event>)
    requires forall e | e in batch :: read(e).Some?
    ensures |events| == |batch| && forall i | 0 <= i < |batch| :: read(batch[i]) == Some(events[i])
  {
    if batch == [] then [] else ReadAll(read, batch[..|batch| - 1]) + [read(batch[|batch| - 1]).value]
  }

  /** `read` is what the service makes of an event it receives, if it accepts it: ids in canonical form, times in microseconds. */
  method Record<Raw>(store: Store, read: Raw -> Option<Event>, source: Bytes, batch: seq<Raw>, now: int, commits: bool)
    returns (answer: Answer)
    requires store.Valid() && forall e :: read(e).Some? ==> CanonicalId(read(e).value.tenantId)
    modifies store
    ensures store.Valid()
    ensures answer.InvalidArgument? <==> !(1 <= |batch| <= MAX_BATCH) || exists e | e in batch :: read(e).None?
    ensures answer.Recorded? ==> (forall e | e in batch :: read(e).Some?) && forall t ::
      RowsIn(store.events, t) == Appended(store.c, RowsIn(old(store.events), t), ForTenant(ReadAll(read, batch), t), source, now)
    ensures answer.Recorded? ==> answer.recorded + answer.duplicates == |batch|
    ensures !answer.Recorded? ==> unchanged(store)
  {
    hide CanonicalId, ReadAll;
    if |batch| == 0 || |batch| > MAX_BATCH {
      return InvalidArgument;
    }
    var events: seq<Event> := [];
    for i := 0 to |batch|
      invariant |events| == i && forall j | 0 <= j < i :: read(batch[j]) == Some(events[j])
    {
      var event := read(batch[i]);
      if event.None? {
        return InvalidArgument;
      }
      events := events + [event.value];
    }
    assert events == ReadAll(read, batch);
    var ok, recorded, duplicates := store.Append(source, events, now, commits);
    answer := if ok then Recorded(recorded, duplicates) else Internal;
  }
}
