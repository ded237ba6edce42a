/** Delivering events to the audit service: the recorder's queue, batches, retries and
    splits, a network that loses and repeats requests, and the service that records them. */
module AuditDelivery {
  import opened ByteStrings
  import opened AuditEvents
  import opened AuditStore

  /** What is fixed during a run. `valid` is the service's check of one event. */
  datatype Config = Config(c: Hashing, queueSize: nat, batchSize: nat, source: Bytes, valid: Event -> bool)

  /** Where the delivery loop stands. A call is waiting for its reply in `Calling` (the whole
      batch) and `Splitting(k)` (event `k` of a refused batch, alone). */
  datatype Phase = Collecting | Calling | Splitting(k: nat) | Waiting | Done

  /** A request holds the entered events from position `lo` on. */
  datatype Request = Request(lo: nat, events: seq<Event>)

  datatype Reply = Ok | Refused | Failed

  datatype State = State(
    // the recorder
    queue: seq<Event>, batch: seq<Event>, closed: bool, stopping: bool, phase: Phase,
    // what became of events: entered the queue (in order), taken out of the batch, acknowledged, logged as undelivered
    entered: seq<Event>, settled: nat, acked: set<Event>, logged: set<Event>,
    // requests ever sent, the last one the call in progress; and those the service recorded
    sent: seq<Request>, recorded: set<nat>,
    // the service's table of events
    table: map<Bytes, seq<Row>>)

  /** One step of anyone: a caller of Record or Close, the loop, a request reaching the service
      (early, late, or again), or another producer's batch. */
  datatype Action =
    | Record(e: Event)
    | Close
    | Take
    | Proceed(seesStop: bool)
    | Return(reply: Reply)
    | Wake(seesStop: bool)
    | Arrive(i: nat, time: int, commits: bool)
    | OtherBatch(events: seq<Event>, source: Bytes, time: int)

  // ----- the service -----

  predicate Acceptable(g: Config, r: Request) {
    1 <= |r.events| <= MAX_BATCH && forall e | e in r.events :: g.valid(e)
  }

  ghost function AppendTable(c: Hashing, table: map<Bytes, seq<Row>>, batch: seq<Event>, source: Bytes, time: int): map<Bytes, seq<Row>> {
    var tenants := table.Keys + set e | e in batch :: e.tenantId;
    map t | t in tenants :: Appended(c, RowsIn(table, t), ForTenant(batch, t), source, time)
  }

  function Trail(rows: seq<Row>): seq<Event> {
    seq(|rows|, i requires 0 <= i < |rows| => rows[i].stamped.event)
  }

  /** A tenant's recorded events, in order. */
  function TrailOf(s: State, tenant: Bytes): seq<Event> {
    Trail(RowsIn(s.table, tenant))
  }

  ghost predicate UsedId(table: map<Bytes, seq<Row>>, id: Bytes) {
    exists t | t in table :: HasId(table[t], id)
  }

  ghost predicate EnteredId(s: State, id: Bytes) {
    exists e | e in s.entered :: e.eventId == id
  }

  // ----- the recorder -----

  ghost predicate Init(s: State) {
    && s.queue == s.batch == s.entered == [] && !s.closed && !s.stopping && s.phase == Collecting
    && s.settled == 0 && s.acked == s.logged == {} && s.sent == [] && s.recorded == {} && s.table == map[]
  }

  /** Event ids are fresh (UUIDs); a reply is what the service answered, or a failure. */
  ghost predicate Enabled(g: Config, s: State, a: Action) {
    match a
    case Record(e) => (g.valid(e) ==> CanonicalId(e.tenantId)) && !EnteredId(s, e.eventId) && !UsedId(s.table, e.eventId)
    case Close => true
    case Take => s.phase == Collecting && !s.stopping && |s.batch| < g.batchSize && s.queue != []
    case Proceed(seesStop) => s.phase == Collecting && (seesStop ==> s.closed && !s.stopping && |s.batch| < g.batchSize)
    case Return(reply) =>
      && (s.phase == Calling || s.phase.Splitting?) && s.sent != []
      && (reply == Ok ==> |s.sent| - 1 in s.recorded)
      && (reply == Refused ==> !Acceptable(g, s.sent[|s.sent| - 1]))
    case Wake(seesStop) => s.phase == Waiting && (seesStop ==> s.closed)
    case Arrive(i, _, _) => i < |s.sent|
    case OtherBatch(events, _, _) => forall e | e in events :: CanonicalId(e.tenantId) && !EnteredId(s, e.eventId)
  }

  /** Queues an event, or logs it when the recorder is closed or the queue is full. */
  function DoRecord(g: Config, s: State, e: Event): State {
    if s.closed || |s.queue| >= g.queueSize then s.(logged := s.logged + {e})
    else s.(queue := s.queue + [e], entered := s.entered + [e])
  }

  function Min(a: int, b: int): int {
    if a < b then a else b
  }

  /** After the select: drain the queue when stopping, then call, return, or go round again. */
  function DoProceed(g: Config, s: State, seesStop: bool): (r: State)
    ensures r.entered == s.entered && r.table == s.table && r.recorded == s.recorded && r.closed == s.closed
  {
    var stopping := s.stopping || seesStop;
    var n := if stopping && |s.batch| < g.batchSize then Min(g.batchSize - |s.batch|, |s.queue|) else 0;
    var d := s.(stopping := stopping, batch := s.batch + s.queue[..n], queue := s.queue[n..]);
    if d.batch == [] then d.(phase := if stopping then Done else Collecting)
    else d.(phase := Calling, sent := s.sent + [Request(s.settled, d.batch)])
  }

  /** The batch is settled, or its next event is sent alone. */
  function NextSingle(s: State, k: nat): (r: State)
    ensures r.entered == s.entered && r.table == s.table && r.recorded == s.recorded && r.closed == s.closed
  {
    if k >= |s.batch| then s.(settled := s.settled + |s.batch|, batch := [], phase := Collecting)
    else s.(phase := Splitting(k), sent := s.sent + [Request(s.settled + k, [s.batch[k]])])
  }

  function Fail(s: State): (r: State)
    ensures r.entered == s.entered && r.table == s.table && r.recorded == s.recorded && r.closed == s.closed
  {
    if s.stopping then
      s.(logged := s.logged + (set e | e in s.batch) + (set e | e in s.queue), settled := |s.entered|,
         batch := [], queue := [], phase := Done)
    else s.(phase := Waiting)
  }

  function DoReturn(s: State, reply: Reply): (r: State)
    ensures r.entered == s.entered && r.table == s.table && r.recorded == s.recorded && r.closed == s.closed
  {
    match s.phase
    case Calling => (
      match reply
      case Ok => s.(acked := s.acked + (set e | e in s.batch), settled := s.settled + |s.batch|, batch := [], phase := Collecting)
      case Refused => NextSingle(s, 0)
      case Failed => Fail(s))
    case Splitting(k) => (
      if k >= |s.batch| then s else
      match reply
      case Ok => NextSingle(s.(acked := s.acked + {s.batch[k]}), k + 1)
      case Refused => NextSingle(s.(logged := s.logged + {s.batch[k]}), k + 1)
      case Failed => Fail(s))
    case _ => s
  }

  /** A request reaches the service, which records all of it or none of it. */
  ghost function DoArrive(g: Config, s: State, i: nat, time: int, commits: bool): State
    requires i < |s.sent|
  {
    if Acceptable(g, s.sent[i]) && commits then
      s.(table := AppendTable(g.c, s.table, s.sent[i].events, g.source, time), recorded := s.recorded + {i})
    else s
  }

  ghost function Next(g: Config, s: State, a: Action): State
    requires Enabled(g, s, a)
  {
    match a
    case Record(e) => DoRecord(g, s, e)
    case Close => s.(closed := true)
    case Take => s.(batch := s.batch + [s.queue[0]], queue := s.queue[1..])
    case Proceed(seesStop) => DoProceed(g, s, seesStop)
    case Return(reply) => DoReturn(s, reply)
    case Wake(seesStop) => s.(stopping := s.stopping || seesStop, phase := Collecting)
    case Arrive(i, time, commits) => DoArrive(g, s, i, time, commits)
    case OtherBatch(events, source, time) => s.(table := AppendTable(g.c, s.table, events, source, time))
  }

  // ----- nothing is lost silently -----

  /** Entered events are settled, in the batch, or queued, in that order; settled ones are
      acknowledged or logged; the batch is bounded. */
  ghost predicate Conserved(g: Config, s: State) {
    && 1 <= g.batchSize <= MAX_BATCH
    && |s.batch| <= g.batchSize && |s.queue| <= g.queueSize
    && s.settled <= |s.entered| && s.entered[s.settled..] == s.batch + s.queue
    && (forall e | e in s.entered[..s.settled] :: e in s.acked || e in s.logged)
    && (s.stopping ==> s.closed)
    && (s.phase == Done ==> s.closed && s.batch == s.queue == [])
    && InCall(g, s)
  }

  /** The call in progress: what was sent, and what became of the events of a split batch before it. */
  ghost predicate InCall(g: Config, s: State) {
    && (s.phase == Calling ==> s.batch != [] && s.sent != [] && s.sent[|s.sent| - 1] == Request(s.settled, s.batch))
    && (s.phase.Splitting? ==>
        && s.phase.k < |s.batch| && s.sent != []
        && s.sent[|s.sent| - 1] == Request(s.settled + s.phase.k, [s.batch[s.phase.k]])
        && forall j | 0 <= j < s.phase.k :: s.batch[j] in s.acked || (s.batch[j] in s.logged && !g.valid(s.batch[j])))
  }

  lemma SettleBatch(g: Config, s: State, acked: set<Event>, logged: set<Event>)
    requires Conserved(g, s) && s.acked <= acked && s.logged <= logged
    requires forall e | e in s.batch :: e in acked || e in logged
    ensures Conserved(g, s.(acked := acked, logged := logged, settled := s.settled + |s.batch|, batch := [], phase := Collecting))
  {
    var n := s.settled + |s.batch|;
    var rest := s.entered[s.settled..];
    assert s.entered[n..] == rest[|s.batch|..] == s.queue;
    forall e | e in s.entered[..n] ensures e in acked || e in logged {
      var i :| 0 <= i < n && s.entered[i] == e;
      if i < s.settled {
        assert e in s.entered[..s.settled];
      } else {
        assert e == rest[i - s.settled] == s.batch[i - s.settled];
      }
    }
  }

  lemma NextSingleConserves(g: Config, s: State, k: nat, acked: set<Event>, logged: set<Event>)
    requires Conserved(g, s) && k <= |s.batch| && s.acked <= acked && s.logged <= logged && s.phase != Done
    requires forall j | 0 <= j < k :: s.batch[j] in acked || (s.batch[j] in logged && !g.valid(s.batch[j]))
    ensures Conserved(g, NextSingle(s.(acked := acked, logged := logged), k))
  {
    if k == |s.batch| {
      SettleBatch(g, s, acked, logged);
    }
  }

  lemma FailConserves(g: Config, s: State)
    requires Conserved(g, s) && s.phase != Done
    ensures Conserved(g, Fail(s))
  {
    if s.stopping {
      forall e | e in s.entered[..|s.entered|] ensures e in s.acked || e in Fail(s).logged {
        var i :| 0 <= i < |s.entered| && s.entered[i] == e;
        if i < s.settled {
          assert e in s.entered[..s.settled];
        } else {
          assert e == s.entered[s.settled..][i - s.settled];
          assert e in s.batch + s.queue;
        }
      }
    }
  }

  lemma ReturnConserves(g: Config, s: State, reply: Reply)
    requires Conserved(g, s) && Enabled(g, s, Return(reply))
    ensures Conserved(g, DoReturn(s, reply))
  {
    match reply
    case Failed => FailConserves(g, s);
    case Ok =>
      if s.phase == Calling {
        SettleBatch(g, s, s.acked + (set e | e in s.batch), s.logged);
      } else {
        NextSingleConserves(g, s, s.phase.k + 1, s.acked + {s.batch[s.phase.k]}, s.logged);
      }
    case Refused =>
      if s.phase == Calling {
        NextSingleConserves(g, s, 0, s.acked, s.logged);
      } else {
        NextSingleConserves(g, s, s.phase.k + 1, s.acked, s.logged + {s.batch[s.phase.k]});
      }
  }

  lemma ProceedConserves(g: Config, s: State, seesStop: bool)
    requires Conserved(g, s) && Enabled(g, s, Proceed(seesStop))
    ensures Conserved(g, DoProceed(g, s, seesStop))
  {
    var r := DoProceed(g, s, seesStop);
    assert r.batch + r.queue == s.batch + s.queue;
  }

  lemma RecordConserves(g: Config, s: State, e: Event)
    requires Conserved(g, s)
    ensures Conserved(g, DoRecord(g, s, e))
  {
    var r := DoRecord(g, s, e);
    assert r.entered[..s.settled] == s.entered[..s.settled];
    assert r.entered[s.settled..] == r.batch + r.queue;
  }

  lemma TakeConserves(g: Config, s: State)
    requires Conserved(g, s) && Enabled(g, s, Take)
    ensures Conserved(g, Next(g, s, Take))
  {
    assert s.batch + [s.queue[0]] + s.queue[1..] == s.batch + s.queue;
  }

  lemma SameAccount(g: Config, s: State, r: State)
    requires Conserved(g, s) && r.queue == s.queue && r.batch == s.batch && r.entered == s.entered && r.settled == s.settled
    requires r.acked == s.acked && r.logged == s.logged && r.sent == s.sent && (r.phase == s.phase || r.phase == Collecting)
    requires (s.closed ==> r.closed) && (r.stopping ==> s.stopping || r.closed)
    ensures Conserved(g, r)
  {
  }

  /** Every step keeps the account of events. */
  lemma StepConserves(g: Config, s: State, a: Action)
    requires Conserved(g, s) && Enabled(g, s, a)
    ensures Conserved(g, Next(g, s, a))
  {
    hide Conserved, DoRecord, DoProceed, DoReturn, AppendTable;
    match a
    case Record(e) => RecordConserves(g, s, e);
    case Take => TakeConserves(g, s);
    case Proceed(seesStop) => ProceedConserves(g, s, seesStop);
    case Return(reply) => ReturnConserves(g, s, reply);
    case _ => SameAccount(g, s, Next(g, s, a));
  }

  // ----- exactly once, in order -----

  function Keep(x: seq<Event>, p: Event -> bool): seq<Event> {
    if x == [] then []
    else Keep(x[..|x| - 1], p) + if p(x[|x| - 1]) then [x[|x| - 1]] else []
  }

  lemma {:induction false} KeepIn(x: seq<Event>, p: Event -> bool)
    ensures forall e :: e in Keep(x, p) <==> e in x && p(e)
  {
    if x != [] {
      KeepIn(x[..|x| - 1], p);
      assert x == x[..|x| - 1] + [x[|x| - 1]];
    }
  }

  lemma {:induction false} KeepAgrees(x: seq<Event>, p: Event -> bool, q: Event -> bool)
    requires forall e | e in x :: p(e) == q(e)
    ensures Keep(x, p) == Keep(x, q)
  {
    if x != [] {
      KeepAgrees(x[..|x| - 1], p, q);
      assert x[|x| - 1] in x;
    }
  }

  lemma KeepSnoc(x: seq<Event>, e: Event, p: Event -> bool)
    ensures Keep(x + [e], p) == Keep(x, p) + if p(e) then [e] else []
  {
    assert (x + [e])[..|x|] == x;
  }

  /** The part of a trail that is this recorder's. */
  function Mine(trail: seq<Event>, entered: seq<Event>): seq<Event> {
    Keep(trail, e => e in entered)
  }

  /** A tenant's valid events among those entered. */
  function Due(g: Config, entered: seq<Event>, tenant: Bytes): seq<Event> {
    Keep(entered, e => g.valid(e) && e.tenantId == tenant)
  }

  ghost predicate DistinctIds(x: seq<Event>) {
    forall i, j | 0 <= i < j < |x| :: x[i].eventId != x[j].eventId
  }

  ghost predicate IdIn(trail: seq<Event>, id: Bytes) {
    exists e | e in trail :: e.eventId == id
  }

  /** Appending a batch, on events alone. */
  ghost function AppendEvents(trail: seq<Event>, batch: seq<Event>): (r: seq<Event>)
    ensures trail <= r
  {
    if batch == [] then trail
    else
      var before := AppendEvents(trail, batch[..|batch| - 1]);
      if IdIn(before, batch[|batch| - 1].eventId) then before else before + [batch[|batch| - 1]]
  }

  lemma IdInTrail(rows: seq<Row>, id: Bytes)
    ensures IdIn(Trail(rows), id) <==> HasId(rows, id)
  {
    if HasId(rows, id) {
      var r :| r in rows && r.stamped.event.eventId == id;
      var i :| 0 <= i < |rows| && rows[i] == r;
      assert Trail(rows)[i] == r.stamped.event;
    }
    if IdIn(Trail(rows), id) {
      var e :| e in Trail(rows) && e.eventId == id;
      var i :| 0 <= i < |rows| && Trail(rows)[i] == e;
      assert rows[i] in rows;
    }
  }

  /** The trail of the appended rows is the trail with the new events. */
  lemma {:induction false} TrailOfAppended(c: Hashing, rows: seq<Row>, batch: seq<Event>, source: Bytes, time: int)
    ensures Trail(Appended(c, rows, batch, source, time)) == AppendEvents(Trail(rows), batch)
  {
    hide HasId, IdIn;
    if batch != [] {
      var init, last := batch[..|batch| - 1], batch[|batch| - 1];
      TrailOfAppended(c, rows, init, source, time);
      var before := Appended(c, rows, init, source, time);
      IdInTrail(before, last.eventId);
      assert Trail(before + [NextRow(c, before, last, source, time)]) == Trail(before) + [last];
    }
  }

  lemma AppendEventsSnoc(trail: seq<Event>, batch: seq<Event>, e: Event)
    ensures AppendEvents(trail, batch + [e])
            == var before := AppendEvents(trail, batch);
               if IdIn(before, e.eventId) then before else before + [e]
  {
    assert (batch + [e])[..|batch|] == batch;
  }

  /** What a trail and a request share: only entered events carry entered ids. */
  ghost predicate OwnIds(trail: seq<Event>, entered: seq<Event>) {
    forall e, x | e in trail && x in entered && e.eventId == x.eventId :: e == x
  }

  lemma {:induction false} AppendEventsOwnIds(trail: seq<Event>, batch: seq<Event>, entered: seq<Event>)
    requires OwnIds(trail, entered) && forall e, x | e in batch && x in entered && e.eventId == x.eventId :: e == x
    ensures OwnIds(AppendEvents(trail, batch), entered)
  {
    if batch != [] {
      assert batch[|batch| - 1] in batch;
      AppendEventsOwnIds(trail, batch[..|batch| - 1], entered);
    }
  }

  /** Valid events of the tenant before `n` are in the trail already. */
  ghost predicate PastRecorded(g: Config, entered: seq<Event>, n: nat, tenant: Bytes, trail: seq<Event>)
    requires n <= |entered|
  {
    forall i | 0 <= i < n :: g.valid(entered[i]) && entered[i].tenantId == tenant ==> entered[i] in trail
  }

  function Max(a: nat, b: nat): nat {
    if a < b then b else a
  }

  lemma {:induction false} DueSkips(g: Config, entered: seq<Event>, tenant: Bytes, f: nat, n: nat)
    requires f <= n <= |entered|
    requires forall i | f <= i < n :: !(g.valid(entered[i]) && entered[i].tenantId == tenant)
    ensures Due(g, entered[..n], tenant) == Due(g, entered[..f], tenant)
  {
    if f < n {
      DueSkips(g, entered, tenant, f, n - 1);
      assert entered[..n] == entered[..n - 1] + [entered[n - 1]];
      KeepSnoc(entered[..n - 1], entered[n - 1], e => g.valid(e) && e.tenantId == tenant);
    }
  }

  /** If the trail holds the due events up to `f` and everything valid before `n`, then nothing valid lies between. */
  lemma FrontierReaches(g: Config, entered: seq<Event>, tenant: Bytes, trail: seq<Event>, f: nat, n: nat)
    requires DistinctIds(entered) && f <= |entered| && n <= |entered|
    requires Mine(trail, entered) == Due(g, entered[..f], tenant)
    requires PastRecorded(g, entered, n, tenant, trail)
    ensures Mine(trail, entered) == Due(g, entered[..Max(f, n)], tenant)
  {
    if f < n {
      KeepIn(trail, e => e in entered);
      KeepIn(entered[..f], e => g.valid(e) && e.tenantId == tenant);
      forall i | f <= i < n ensures !(g.valid(entered[i]) && entered[i].tenantId == tenant) {
        var e := entered[i];
        assert e !in entered[..f];
        assert e in Mine(trail, entered) || !(g.valid(e) && e.tenantId == tenant);
      }
      DueSkips(g, entered, tenant, f, n);
    }
  }

  /** One more event of a request arrives. */
  lemma ArriveOne(g: Config, entered: seq<Event>, tenant: Bytes, trail: seq<Event>, f: nat, j: nat)
    requires DistinctIds(entered) && OwnIds(trail, entered) && j < |entered| && f <= |entered|
    requires g.valid(entered[j]) && Mine(trail, entered) == Due(g, entered[..Max(f, j)], tenant)
    ensures var e := entered[j];
            var r := if e.tenantId != tenant || IdIn(trail, e.eventId) then trail else trail + [e];
            OwnIds(r, entered) && Mine(r, entered) == Due(g, entered[..Max(f, j + 1)], tenant)
  {
    var e := entered[j];
    KeepIn(trail, x => x in entered);
    KeepIn(entered[..Max(f, j)], x => g.valid(x) && x.tenantId == tenant);
    assert e in entered;
    if j < f {
      assert e in entered[..f];
      assert e.tenantId == tenant ==> e in Mine(trail, entered);
    } else {
      assert entered[..j + 1] == entered[..j] + [e];
      KeepSnoc(entered[..j], e, x => g.valid(x) && x.tenantId == tenant);
      KeepSnoc(trail, e, x => x in entered);
      assert e !in entered[..j];
      assert e.tenantId == tenant ==> !IdIn(trail, e.eventId);
    }
  }

  lemma AppendForTenant(trail: seq<Event>, init: seq<Event>, e: Event, tenant: Bytes)
    ensures var before := AppendEvents(trail, ForTenant(init, tenant));
            AppendEvents(trail, ForTenant(init + [e], tenant))
            == if e.tenantId != tenant || IdIn(before, e.eventId) then before else before + [e]
  {
    hide IdIn;
    assert (init + [e])[..|init|] == init;
    if e.tenantId == tenant {
      AppendEventsSnoc(trail, ForTenant(init, tenant), e);
    } else {
      assert ForTenant(init + [e], tenant) == ForTenant(init, tenant);
    }
  }

  /** A request whose predecessors are recorded extends the recorder's part of a trail to the due events
      up to its end, however much of it was recorded before. */
  lemma {:induction false} ArriveSlice(g: Config, entered: seq<Event>, tenant: Bytes, trail: seq<Event>, f: nat, lo: nat, hi: nat)
    requires DistinctIds(entered) && OwnIds(trail, entered) && f <= |entered| && lo <= hi <= |entered|
    requires Mine(trail, entered) == Due(g, entered[..f], tenant) && PastRecorded(g, entered, lo, tenant, trail)
    requires forall i | lo <= i < hi :: g.valid(entered[i])
    ensures var r := AppendEvents(trail, ForTenant(entered[lo..hi], tenant));
            OwnIds(r, entered) && Mine(r, entered) == Due(g, entered[..Max(f, hi)], tenant)
    decreases hi
  {
    hide Mine, Due, IdIn, OwnIds, DistinctIds, PastRecorded, AppendEvents, ForTenant;
    if lo == hi {
      FrontierReaches(g, entered, tenant, trail, f, lo);
      assert AppendEvents(trail, ForTenant(entered[lo..hi], tenant)) == trail by { NothingArrives(trail, entered[lo..hi], tenant); }
    } else {
      ArriveSlice(g, entered, tenant, trail, f, lo, hi - 1);
      var e, init := entered[hi - 1], entered[lo..hi - 1];
      assert entered[lo..hi] == init + [e];
      AppendForTenant(trail, init, e, tenant);
      ArriveOne(g, entered, tenant, AppendEvents(trail, ForTenant(init, tenant)), f, hi - 1);
    }
  }

  lemma NothingArrives(trail: seq<Event>, none: seq<Event>, tenant: Bytes)
    requires none == []
    ensures AppendEvents(trail, ForTenant(none, tenant)) == trail
  {
  }

  ghost predicate InTrail(s: State, e: Event) {
    e in TrailOf(s, e.tenantId)
  }

  ghost predicate Past(g: Config, s: State, n: nat) {
    n <= |s.entered| && forall i | 0 <= i < n :: g.valid(s.entered[i]) ==> InTrail(s, s.entered[i])
  }

  /** A request is a run of entered events, and everything valid before it is recorded. */
  ghost predicate Sound(g: Config, s: State, r: Request) {
    && r.lo + |r.events| <= |s.entered| && r.events == s.entered[r.lo..r.lo + |r.events|]
    && Past(g, s, r.lo)
  }

  /** The service: each chain is intact, and for every tenant the recorder's part of the trail is
      the due events among the first `f` entered. */
  ghost predicate TrailsDeliver(g: Config, s: State, f: nat) {
    && f <= |s.entered| && DistinctIds(s.entered) && (forall e | e in s.entered && g.valid(e) :: CanonicalId(e.tenantId))
    && (forall t | t in s.table :: Intact(g.c, t, s.table[t]))
    && (forall t :: OwnIds(TrailOf(s, t), s.entered))
    && (forall t :: Mine(TrailOf(s, t), s.entered) == Due(g, s.entered[..f], t))
  }

  /** The recorder: what it sent, what it was told, and what it has settled. */
  ghost predicate CallsSound(g: Config, s: State) {
    && (forall i | 0 <= i < |s.sent| :: Sound(g, s, s.sent[i]))
    && (forall i | i in s.recorded :: i < |s.sent| && forall e | e in s.sent[i].events :: InTrail(s, e))
    && (forall e | e in s.acked :: InTrail(s, e))
    && (s.phase != Done ==> Past(g, s, s.settled))
  }

  ghost predicate Delivers(g: Config, s: State, f: nat) {
    Conserved(g, s) && TrailsDeliver(g, s, f) && CallsSound(g, s)
  }

  // -- the service's steps --

  lemma AppendTableRows(c: Hashing, table: map<Bytes, seq<Row>>, batch: seq<Event>, source: Bytes, time: int, t: Bytes)
    ensures RowsIn(AppendTable(c, table, batch, source, time), t)
            == Appended(c, RowsIn(table, t), ForTenant(batch, t), source, time)
    ensures Trail(RowsIn(AppendTable(c, table, batch, source, time), t))
            == AppendEvents(Trail(RowsIn(table, t)), ForTenant(batch, t))
    ensures t in AppendTable(c, table, batch, source, time) ==> t in table || exists e | e in batch :: e.tenantId == t
  {
    TrailOfAppended(c, RowsIn(table, t), ForTenant(batch, t), source, time);
    if ForTenant(batch, t) != [] {
      ForTenantSubset(batch, t, ForTenant(batch, t)[0]);
    }
  }

  lemma AppendTableIntact(c: Hashing, table: map<Bytes, seq<Row>>, batch: seq<Event>, source: Bytes, time: int)
    requires forall t | t in table :: Intact(c, t, table[t])
    requires forall e | e in batch :: CanonicalId(e.tenantId)
    ensures var r := AppendTable(c, table, batch, source, time);
            forall t | t in r :: Intact(c, t, r[t])
  {
    hide CanonicalId, RowIntact;
    var r := AppendTable(c, table, batch, source, time);
    forall t | t in r ensures Intact(c, t, r[t]) {
      AppendTableRows(c, table, batch, source, time, t);
      assert CanonicalId(t);
      AppendedIntact(c, t, RowsIn(table, t), ForTenant(batch, t), source, time);
    }
  }

  lemma TableGrows(g: Config, s: State, r: State, batch: seq<Event>, source: Bytes, time: int)
    requires r.table == AppendTable(g.c, s.table, batch, source, time) && r.entered == s.entered
    ensures forall e | InTrail(s, e) :: InTrail(r, e)
  {
    forall e | InTrail(s, e) ensures InTrail(r, e) {
      AppendTableRows(g.c, s.table, batch, source, time, e.tenantId);
    }
  }

  lemma CallsStaySound(g: Config, s: State, r: State)
    requires CallsSound(g, s) && r.entered == s.entered && r.sent == s.sent && r.recorded == s.recorded
    requires r.acked == s.acked && r.settled == s.settled && r.phase == s.phase
    requires forall e | InTrail(s, e) :: InTrail(r, e)
    ensures CallsSound(g, r)
  {
    hide InTrail;
    forall i | 0 <= i < |r.sent| ensures Sound(g, r, r.sent[i]) {
      assert Sound(g, s, s.sent[i]);
    }
  }

  lemma ArriveConserves(g: Config, s: State, i: nat, time: int)
    requires Conserved(g, s) && i < |s.sent|
    ensures Conserved(g, DoArrive(g, s, i, time, true))
  {
  }

  lemma {:induction false} AppendEventsHas(trail: seq<Event>, batch: seq<Event>, e: Event)
    requires e in batch
    ensures IdIn(AppendEvents(trail, batch), e.eventId)
  {
    var init, last := batch[..|batch| - 1], batch[|batch| - 1];
    if e in init {
      AppendEventsHas(trail, init, e);
      var x :| x in AppendEvents(trail, init) && x.eventId == e.eventId;
      assert x in AppendEvents(trail, batch);
    } else {
      assert batch == init + [last] && e == last;
      assert last in AppendEvents(trail, batch) || IdIn(AppendEvents(trail, init), last.eventId);
    }
  }

  lemma {:induction false} ForTenantHas(events: seq<Event>, e: Event)
    requires e in events
    ensures e in ForTenant(events, e.tenantId)
  {
    var init, last := events[..|events| - 1], events[|events| - 1];
    if e in init {
      ForTenantHas(init, e);
    } else {
      assert events == init + [last];
    }
  }

  /** All of an accepted request is in the trail afterwards. */
  lemma RequestRecorded(g: Config, s: State, r: State, q: Request, time: int, e: Event)
    requires r == s.(table := AppendTable(g.c, s.table, q.events, g.source, time), recorded := r.recorded)
    requires e in q.events && e in s.entered && OwnIds(TrailOf(r, e.tenantId), s.entered)
    ensures InTrail(r, e)
  {
    AppendTableRows(g.c, s.table, q.events, g.source, time, e.tenantId);
    ForTenantHas(q.events, e);
    AppendEventsHas(TrailOf(s, e.tenantId), ForTenant(q.events, e.tenantId), e);
  }

  lemma ArriveTrail(g: Config, s: State, f: nat, i: nat, time: int, t: Bytes)
    requires f <= |s.entered| && DistinctIds(s.entered) && i < |s.sent| && Acceptable(g, s.sent[i]) && Sound(g, s, s.sent[i])
    requires OwnIds(TrailOf(s, t), s.entered) && Mine(TrailOf(s, t), s.entered) == Due(g, s.entered[..f], t)
    ensures var r, hi := DoArrive(g, s, i, time, true), s.sent[i].lo + |s.sent[i].events|;
            && OwnIds(TrailOf(r, t), s.entered)
            && Mine(TrailOf(r, t), s.entered) == Due(g, s.entered[..Max(f, hi)], t)
  {
    hide Mine, Due, OwnIds, AppendTable, DistinctIds, AppendEvents, ForTenant;
    var q := s.sent[i];
    var hi := q.lo + |q.events|;
    AppendTableRows(g.c, s.table, q.events, g.source, time, t);
    forall k | q.lo <= k < hi ensures g.valid(s.entered[k]) {
      assert s.entered[k] == q.events[k - q.lo];
    }
    ArriveSlice(g, s.entered, t, TrailOf(s, t), f, q.lo, hi);
  }

  lemma ArriveTrails(g: Config, s: State, f: nat, i: nat, time: int)
    requires TrailsDeliver(g, s, f) && i < |s.sent| && Acceptable(g, s.sent[i]) && Sound(g, s, s.sent[i])
    ensures TrailsDeliver(g, DoArrive(g, s, i, time, true), Max(f, s.sent[i].lo + |s.sent[i].events|))
  {
    hide Mine, Due, OwnIds, CanonicalId, Intact, AppendTable, DistinctIds, Past, TrailOf;
    var q, r := s.sent[i], DoArrive(g, s, i, time, true);
    forall t
      ensures OwnIds(TrailOf(r, t), r.entered)
      ensures Mine(TrailOf(r, t), r.entered) == Due(g, r.entered[..Max(f, q.lo + |q.events|)], t)
    {
      ArriveTrail(g, s, f, i, time, t);
    }
    AppendTableIntact(g.c, s.table, q.events, g.source, time);
  }

  lemma ArriveCalls(g: Config, s: State, f: nat, i: nat, time: int)
    requires CallsSound(g, s) && i < |s.sent| && Acceptable(g, s.sent[i])
    requires forall t :: OwnIds(TrailOf(DoArrive(g, s, i, time, true), t), s.entered)
    ensures CallsSound(g, DoArrive(g, s, i, time, true))
  {
    hide OwnIds, AppendTable;
    var q, r := s.sent[i], DoArrive(g, s, i, time, true);
    assert Sound(g, s, q);
    TableGrows(g, s, r, q.events, g.source, time);
    CallsStaySound(g, s, r.(recorded := s.recorded));
    forall e | e in q.events ensures InTrail(r, e) {
      RequestRecorded(g, s, r, q, time, e);
    }
  }

  /** A request arriving, however late or often. */
  lemma ArriveDelivers(g: Config, s: State, f: nat, i: nat, time: int)
    requires Delivers(g, s, f) && i < |s.sent| && Acceptable(g, s.sent[i])
    ensures Delivers(g, DoArrive(g, s, i, time, true), Max(f, s.sent[i].lo + |s.sent[i].events|))
  {
    assert Sound(g, s, s.sent[i]);
    ArriveTrails(g, s, f, i, time);
    ArriveCalls(g, s, f, i, time);
    ArriveConserves(g, s, i, time);
  }

  lemma {:induction false} OthersLeaveMine(trail: seq<Event>, batch: seq<Event>, entered: seq<Event>)
    requires forall e, x | e in batch && x in entered :: e.eventId != x.eventId
    ensures Mine(AppendEvents(trail, batch), entered) == Mine(trail, entered)
  {
    if batch != [] {
      var init, last := batch[..|batch| - 1], batch[|batch| - 1];
      OthersLeaveMine(trail, init, entered);
      assert last in batch && last !in entered;
      KeepSnoc(AppendEvents(trail, init), last, e => e in entered);
    }
  }

  /** Other producers' batches do not touch the recorder's part of any trail. */
  lemma OtherBatchDelivers(g: Config, s: State, f: nat, batch: seq<Event>, source: Bytes, time: int)
    requires Delivers(g, s, f) && Enabled(g, s, OtherBatch(batch, source, time))
    ensures Delivers(g, s.(table := AppendTable(g.c, s.table, batch, source, time)), f)
  {
    hide Mine, Due, OwnIds, CanonicalId, Intact, AppendTable, DistinctIds, InCall, CallsSound;
    var r := s.(table := AppendTable(g.c, s.table, batch, source, time));
    forall t ensures OwnIds(TrailOf(r, t), r.entered) && Mine(TrailOf(r, t), r.entered) == Due(g, r.entered[..f], t) {
      AppendTableRows(g.c, s.table, batch, source, time, t);
      forall e | e in ForTenant(batch, t) ensures e in batch { ForTenantSubset(batch, t, e); }
      OthersLeaveMine(TrailOf(s, t), ForTenant(batch, t), s.entered);
      AppendEventsOwnIds(TrailOf(s, t), ForTenant(batch, t), s.entered);
    }
    AppendTableIntact(g.c, s.table, batch, source, time);
    TableGrows(g, s, r, batch, source, time);
    CallsStaySound(g, s, r);
    assert InCall(g, s) ==> InCall(g, r) by { CallUntouched(g, s, r.table); }
  }

  lemma CallUntouched(g: Config, s: State, table: map<Bytes, seq<Row>>)
    ensures InCall(g, s) ==> InCall(g, s.(table := table))
  {
  }

  // -- the recorder's steps --

  lemma RecordTrails(g: Config, s: State, f: nat, e: Event)
    requires TrailsDeliver(g, s, f) && Enabled(g, s, Record(e))
    ensures TrailsDeliver(g, s.(queue := s.queue + [e], entered := s.entered + [e]), f)
  {
    hide CanonicalId, Intact, Due;
    var r := s.(queue := s.queue + [e], entered := s.entered + [e]);
    forall t ensures OwnIds(TrailOf(r, t), r.entered) && Mine(TrailOf(r, t), r.entered) == Due(g, r.entered[..f], t) {
      FreshIsNotMine(s, e, t);
      assert r.entered[..f] == s.entered[..f];
      KeepAgrees(TrailOf(s, t), x => x in s.entered, x => x in r.entered);
    }
    forall i, j | 0 <= i < j < |r.entered| ensures r.entered[i].eventId != r.entered[j].eventId {
      assert r.entered[i] in s.entered;
    }
  }

  lemma RecordCalls(g: Config, s: State, e: Event)
    requires CallsSound(g, s)
    ensures CallsSound(g, s.(queue := s.queue + [e], entered := s.entered + [e]))
  {
    var r := s.(queue := s.queue + [e], entered := s.entered + [e]);
    assert forall x :: InTrail(s, x) == InTrail(r, x);
    forall i | 0 <= i < |r.sent| ensures Sound(g, r, r.sent[i]) {
      hide InTrail;
      assert Sound(g, s, s.sent[i]);
      assert r.entered[..|s.entered|] == s.entered;
    }
  }

  lemma RecordDelivers(g: Config, s: State, f: nat, e: Event)
    requires Delivers(g, s, f) && Enabled(g, s, Record(e))
    ensures Delivers(g, DoRecord(g, s, e), f)
  {
    hide Conserved, TrailsDeliver, CallsSound;
    var r := DoRecord(g, s, e);
    if r.entered != s.entered {
      RecordTrails(g, s, f, e);
      RecordCalls(g, s, e);
    } else {
      SameService(g, s, r, f);
      SameCalls(g, s, r);
    }
    StepConserves(g, s, Record(e));
  }

  lemma SameService(g: Config, s: State, r: State, f: nat)
    requires TrailsDeliver(g, s, f) && r.entered == s.entered && r.table == s.table
    ensures TrailsDeliver(g, r, f)
  {
    hide Intact, CanonicalId, DistinctIds, OwnIds, Mine, Due;
    assert forall t :: TrailOf(r, t) == TrailOf(s, t);
  }

  /** Steps of the loop: new requests are sound, new acknowledgements are recorded, settled events are past. */
  lemma CallsAfter(g: Config, s: State, r: State)
    requires CallsSound(g, s) && r.entered == s.entered && r.table == s.table && r.recorded == s.recorded
    requires s.sent <= r.sent && forall i | |s.sent| <= i < |r.sent| :: Sound(g, s, r.sent[i])
    requires forall e | e in r.acked :: e in s.acked || InTrail(s, e)
    requires r.phase != Done ==> Past(g, s, r.settled)
    ensures CallsSound(g, r)
  {
    assert forall e :: InTrail(s, e) == InTrail(r, e);
    hide InTrail;
    forall i | 0 <= i < |r.sent| ensures Sound(g, r, r.sent[i]) {
      assert Sound(g, s, r.sent[i]);
    }
  }

  lemma SameCalls(g: Config, s: State, r: State)
    requires CallsSound(g, s) && r.entered == s.entered && r.table == s.table && r.sent == s.sent
    requires r.recorded == s.recorded && r.acked == s.acked
    requires r.phase != Done ==> s.phase != Done && r.settled == s.settled
    ensures CallsSound(g, r)
  {
    CallsAfter(g, s, r);
  }

  lemma BatchIsSlice(g: Config, s: State, lo: nat, hi: nat)
    requires Conserved(g, s) && lo <= hi <= |s.batch|
    ensures s.settled + hi <= |s.entered| && s.entered[s.settled + lo..s.settled + hi] == s.batch[lo..hi]
  {
    var rest := s.entered[s.settled..];
    assert s.entered[s.settled + lo..s.settled + hi] == rest[lo..hi];
    assert (s.batch + s.queue)[lo..hi] == s.batch[lo..hi];
  }

  lemma PastBatch(g: Config, s: State, k: nat)
    requires Conserved(g, s) && Past(g, s, s.settled) && k <= |s.batch|
    requires forall j | 0 <= j < k :: InTrail(s, s.batch[j]) || !g.valid(s.batch[j])
    ensures Past(g, s, s.settled + k)
  {
    hide InTrail;
    BatchIsSlice(g, s, 0, k);
    forall i | 0 <= i < s.settled + k ensures g.valid(s.entered[i]) ==> InTrail(s, s.entered[i]) {
      if i >= s.settled {
        assert s.entered[i] == s.entered[s.settled..s.settled + k][i - s.settled] == s.batch[i - s.settled];
      }
    }
  }

  lemma SingleSound(g: Config, s: State, k: nat)
    requires Conserved(g, s) && Past(g, s, s.settled + k) && k < |s.batch|
    ensures Sound(g, s, Request(s.settled + k, [s.batch[k]]))
  {
    hide InTrail;
    BatchIsSlice(g, s, k, k + 1);
  }

  lemma NextSingleCalls(g: Config, s: State, k: nat, acked: set<Event>, logged: set<Event>)
    requires Conserved(g, s) && CallsSound(g, s) && s.phase != Done && k <= |s.batch|
    requires forall e | e in acked :: e in s.acked || InTrail(s, e)
    requires forall j | 0 <= j < k :: InTrail(s, s.batch[j]) || !g.valid(s.batch[j])
    ensures CallsSound(g, NextSingle(s.(acked := acked, logged := logged), k))
  {
    hide InTrail;
    PastBatch(g, s, k);
    if k < |s.batch| {
      SingleSound(g, s, k);
    }
    CallsAfter(g, s, NextSingle(s.(acked := acked, logged := logged), k));
  }

  lemma LastCall(g: Config, s: State)
    requires CallsSound(g, s) && s.sent != []
    ensures |s.sent| - 1 in s.recorded ==> forall e | e in s.sent[|s.sent| - 1].events :: InTrail(s, e)
    ensures s.phase != Done ==> Past(g, s, s.settled)
  {
    hide InTrail, Sound, Past;
  }

  lemma BatchReplyCalls(g: Config, s: State, reply: Reply)
    requires Conserved(g, s) && CallsSound(g, s) && Enabled(g, s, Return(reply)) && s.phase == Calling
    ensures CallsSound(g, DoReturn(s, reply))
  {
    hide InTrail, Past, CallsSound, NextSingle;
    LastCall(g, s);
    match reply
    case Failed => CallsAfter(g, s, Fail(s));
    case Refused => NextSingleCalls(g, s, 0, s.acked, s.logged);
    case Ok =>
      PastBatch(g, s, |s.batch|);
      CallsAfter(g, s, DoReturn(s, Ok));
  }

  lemma SingleReplyCalls(g: Config, s: State, reply: Reply)
    requires Conserved(g, s) && CallsSound(g, s) && Enabled(g, s, Return(reply)) && s.phase.Splitting?
    ensures CallsSound(g, DoReturn(s, reply))
  {
    hide InTrail, Past, CallsSound, NextSingle;
    LastCall(g, s);
    var k := s.phase.k;
    assert s.sent[|s.sent| - 1].events == [s.batch[k]];
    AckedInTrail(g, s);
    match reply
    case Failed => CallsAfter(g, s, Fail(s));
    case Refused =>
      assert !g.valid(s.batch[k]);
      NextSingleCalls(g, s, k + 1, s.acked, s.logged + {s.batch[k]});
    case Ok =>
      assert s.batch[k] in s.sent[|s.sent| - 1].events;
      NextSingleCalls(g, s, k + 1, s.acked + {s.batch[k]}, s.logged);
  }

  lemma AckedInTrail(g: Config, s: State)
    requires CallsSound(g, s)
    ensures forall e | e in s.acked :: InTrail(s, e)
  {
    hide InTrail, Sound, Past;
  }

  lemma PastSettled(g: Config, s: State)
    requires CallsSound(g, s) && s.phase != Done
    ensures Past(g, s, s.settled)
  {
    hide InTrail, Sound, Past;
  }

  lemma ProceedCalls(g: Config, s: State, seesStop: bool)
    requires Conserved(g, s) && CallsSound(g, s) && Enabled(g, s, Proceed(seesStop))
    ensures CallsSound(g, DoProceed(g, s, seesStop))
  {
    hide InTrail, Past, CallsSound;
    var r := DoProceed(g, s, seesStop);
    PastSettled(g, s);
    ProceedConserves(g, s, seesStop);
    if r.phase == Calling {
      BatchIsSlice(g, r, 0, |r.batch|);
      assert Sound(g, s, Request(s.settled, r.batch));
    }
    CallsAfter(g, s, r);
  }

  /** Every step keeps the delivery guarantee; the frontier only moves forward. */
  lemma StepDelivers(g: Config, s: State, f: nat, a: Action) returns (f': nat)
    requires Delivers(g, s, f) && Enabled(g, s, a)
    ensures f <= f' && Delivers(g, Next(g, s, a), f')
  {
    hide Conserved, TrailsDeliver, CallsSound;
    var r := Next(g, s, a);
    f' := f;
    match a
    case Record(e) => RecordDelivers(g, s, f, e);
    case OtherBatch(events, source, time) => OtherBatchDelivers(g, s, f, events, source, time);
    case Arrive(i, time, commits) =>
      if Acceptable(g, s.sent[i]) && commits {
        ArriveDelivers(g, s, f, i, time);
        f' := Max(f, s.sent[i].lo + |s.sent[i].events|);
      }
    case _ =>
      LoopDelivers(g, s, f, a);
  }

  lemma LoopCalls(g: Config, s: State, a: Action)
    requires Conserved(g, s) && CallsSound(g, s) && Enabled(g, s, a)
    requires a.Close? || a.Take? || a.Proceed? || a.Return? || a.Wake?
    ensures CallsSound(g, Next(g, s, a))
  {
    hide CallsSound, Conserved;
    match a
    case Proceed(seesStop) => ProceedCalls(g, s, seesStop);
    case Return(reply) =>
      if s.phase == Calling {
        BatchReplyCalls(g, s, reply);
      } else {
        SingleReplyCalls(g, s, reply);
      }
    case Close => SameCalls(g, s, s.(closed := true));
    case Take => SameCalls(g, s, Next(g, s, a));
    case Wake(seesStop) => SameCalls(g, s, Next(g, s, a));
  }

  /** Steps of the recorder itself. */
  lemma LoopDelivers(g: Config, s: State, f: nat, a: Action)
    requires Delivers(g, s, f) && Enabled(g, s, a) && (a.Close? || a.Take? || a.Proceed? || a.Return? || a.Wake?)
    ensures Delivers(g, Next(g, s, a), f)
  {
    hide TrailsDeliver, CallsSound, Conserved, DoProceed, DoReturn;
    StepConserves(g, s, a);
    SameService(g, s, Next(g, s, a), f);
    LoopCalls(g, s, a);
  }

  // ----- whole runs -----

  /** Any interleaving of the steps, from a new recorder and an empty trail. */
  ghost predicate Run(g: Config, states: seq<State>, actions: seq<Action>) {
    && 1 <= g.batchSize <= MAX_BATCH
    && |states| == |actions| + 1 && Init(states[0])
    && forall i | 0 <= i < |actions| :: Enabled(g, states[i], actions[i]) && states[i + 1] == Next(g, states[i], actions[i])
  }

  lemma {:induction false} RunDelivers(g: Config, states: seq<State>, actions: seq<Action>, n: nat) returns (f: nat)
    requires Run(g, states, actions) && n < |states|
    ensures Delivers(g, states[n], f)
  {
    hide Next, Enabled, Conserved, TrailsDeliver, CallsSound;
    if n == 0 {
      InitDelivers(g, states[0]);
      f := 0;
    } else {
      f := RunDelivers(g, states, actions, n - 1);
      f := StepDelivers(g, states[n - 1], f, actions[n - 1]);
    }
  }

  lemma InitDelivers(g: Config, s: State)
    requires Init(s) && 1 <= g.batchSize <= MAX_BATCH
    ensures Delivers(g, s, 0)
  {
    forall t ensures TrailOf(s, t) == [] {}
  }

  /** In every run, whatever was lost, late or repeated: each tenant's chain is intact, and the recorder's part of
      the trail is the valid events of one prefix of the Record order. So no event is there twice and none out of order. */
  lemma TrailHoldsEachOnceInOrder(g: Config, states: seq<State>, actions: seq<Action>, n: nat) returns (f: nat)
    requires Run(g, states, actions) && n < |states|
    ensures f <= |states[n].entered| && DistinctIds(states[n].entered)
    ensures forall t :: Mine(TrailOf(states[n], t), states[n].entered) == Due(g, states[n].entered[..f], t)
    ensures forall t :: t in states[n].table ==> Intact(g.c, t, states[n].table[t])
  {
    hide Conserved, CallsSound, Intact, Mine, Due, Run, OwnIds, DistinctIds;
    f := RunDelivers(g, states, actions, n);
  }

  /** In every run every entered event is acknowledged or logged, or still in the batch or the queue, and the batch is
      bounded; an acknowledged event is in its tenant's trail; until the loop returns, every valid event no longer waiting is
      there too, so a valid one is given up only at shutdown; when the loop has returned, nothing is left waiting. */
  lemma NothingIsLostSilently(g: Config, states: seq<State>, actions: seq<Action>, n: nat)
    requires Run(g, states, actions) && n < |states|
    ensures var s := states[n];
            && |s.batch| <= g.batchSize && |s.queue| <= g.queueSize
            && (forall e | e in s.entered :: e in s.acked || e in s.logged || e in s.batch || e in s.queue)
            && (forall e | e in s.acked :: InTrail(s, e))
            && (s.phase == Done ==> forall e | e in s.entered :: e in s.acked || e in s.logged)
            && (s.phase != Done ==> forall e | e in s.entered && g.valid(e) :: InTrail(s, e) || e in s.batch || e in s.queue)
  {
    hide TrailsDeliver, InTrail, Run, InCall;
    var f := RunDelivers(g, states, actions, n);
    var s := states[n];
    forall e | e in s.entered ensures e in s.acked || e in s.logged || e in s.batch || e in s.queue {
      assert s.entered == s.entered[..s.settled] + (s.batch + s.queue);
    }
    if s.phase != Done {
      forall e | e in s.entered && g.valid(e) ensures InTrail(s, e) || e in s.batch || e in s.queue {
        assert s.entered == s.entered[..s.settled] + (s.batch + s.queue);
        assert e in s.entered[..s.settled] ==> exists i | 0 <= i < s.settled :: s.entered[i] == e;
      }
    }
  }

  // ----- what each step does -----

  /** The recorder takes an event. */
  ghost predicate HasRoom(g: Config, s: State) {
    !s.closed && |s.queue| < g.queueSize
  }

  /** Recording queues the event exactly when the recorder is open and has room; otherwise it only logs it. */
  lemma RecordsIff(g: Config, s: State, e: Event)
    requires Enabled(g, s, Record(e))
    ensures var r := Next(g, s, Record(e));
            && (HasRoom(g, s) <==> r.queue == s.queue + [e])
            && (HasRoom(g, s) ==> r.entered == s.entered + [e] && r.logged == s.logged)
            && (!HasRoom(g, s) ==> r.queue == s.queue && r.entered == s.entered && r.logged == s.logged + {e})
            && r == s.(queue := r.queue, entered := r.entered, logged := r.logged)
  {
    assert s.queue + [e] != s.queue;
  }

  /** The events recorded in the first `n` steps while there was room, in order. */
  ghost function Accepted(g: Config, states: seq<State>, actions: seq<Action>, n: nat): seq<Event>
    requires n <= |actions| < |states|
  {
    if n == 0 then []
    else Accepted(g, states, actions, n - 1)
         + if actions[n - 1].Record? && HasRoom(g, states[n - 1]) then [actions[n - 1].e] else []
  }

  lemma OthersEnterNothing(g: Config, s: State, a: Action)
    requires Enabled(g, s, a) && !a.Record?
    ensures Next(g, s, a).entered == s.entered
  {
    hide AppendTable;
  }

  /** In every run the events that entered are exactly those recorded while the recorder was open and had room, in that order. */
  lemma {:induction false} EnteredIsAccepted(g: Config, states: seq<State>, actions: seq<Action>, n: nat)
    requires Run(g, states, actions) && n <= |actions|
    ensures states[n].entered == Accepted(g, states, actions, n)
  {
    hide Next, Enabled, HasRoom;
    if n > 0 {
      EnteredIsAccepted(g, states, actions, n - 1);
      var a, s := actions[n - 1], states[n - 1];
      if a.Record? {
        RecordsIff(g, s, a.e);
      } else {
        OthersEnterNothing(g, s, a);
      }
    }
  }

  /** After the select, the batch, with what was drained when stopping, is sent whole; there is nothing to send only when nothing
      waits, and then the loop returns if it is stopping. */
  lemma ProceedSends(g: Config, s: State, seesStop: bool)
    requires Conserved(g, s)
    ensures var r, stopping := DoProceed(g, s, seesStop), s.stopping || seesStop;
            && r.stopping == stopping && r.settled == s.settled && r.acked == s.acked && r.logged == s.logged
            && s.batch <= r.batch && r.batch + r.queue == s.batch + s.queue
            && (if stopping then r.queue == [] || |r.batch| == g.batchSize else r.batch == s.batch)
            && (r.batch != [] ==> r.phase == Calling && r.sent == s.sent + [Request(s.settled, r.batch)])
            && (r.batch == [] ==> r.sent == s.sent && r.phase == if stopping then Done else Collecting)
  {
  }

  /** What a reply does: an accepted batch is acknowledged and done with; a refused one is sent one by one; a failure keeps all of it
      for another try, or at shutdown logs everything that is left and ends. */
  lemma ReturnDoes(g: Config, s: State, reply: Reply)
    requires Conserved(g, s) && Enabled(g, s, Return(reply))
    ensures var r := DoReturn(s, reply);
            && (reply == Failed && !s.stopping ==> r == s.(phase := Waiting))
            && (reply == Failed && s.stopping ==>
                && r.phase == Done && r.batch == r.queue == []
                && forall e :: e in r.logged <==> e in s.logged || e in s.batch || e in s.queue)
            && (s.phase == Calling && reply == Ok ==>
                && r.phase == Collecting && r.batch == [] && r.queue == s.queue && r.logged == s.logged
                && forall e :: e in r.acked <==> e in s.acked || e in s.batch)
            && (s.phase == Calling && reply == Refused ==>
                r == s.(phase := Splitting(0), sent := s.sent + [Request(s.settled, [s.batch[0]])]))
            && (s.phase.Splitting? && reply != Failed ==>
                && r.acked == (if reply == Ok then s.acked + {s.batch[s.phase.k]} else s.acked)
                && r.logged == (if reply == Refused then s.logged + {s.batch[s.phase.k]} else s.logged)
                && (s.phase.k + 1 < |s.batch| ==>
                    && r.phase == Splitting(s.phase.k + 1) && r.batch == s.batch
                    && r.sent == s.sent + [Request(s.settled + s.phase.k + 1, [s.batch[s.phase.k + 1]])])
                && (s.phase.k + 1 == |s.batch| ==> r.phase == Collecting && r.batch == [] && r.sent == s.sent))
  {
  }

  // ----- everything can be delivered -----

  /** Doing the actions in turn from one state ends in the other. */
  ghost predicate Leads(g: Config, s: State, actions: seq<Action>, t: State)
    decreases |actions|
  {
    if actions == [] then s == t
    else Enabled(g, s, actions[0]) && Leads(g, Next(g, s, actions[0]), actions[1..], t)
  }

  lemma {:induction false} LeadsOn(g: Config, s: State, a: seq<Action>, t: State, b: seq<Action>, u: State)
    requires Leads(g, s, a, t) && Leads(g, t, b, u)
    ensures Leads(g, s, a + b, u)
    decreases |a|
  {
    hide Enabled, Next;
    if a == [] {
      assert a + b == b;
    } else {
      LeadsOn(g, Next(g, s, a[0]), a[1..], t, b, u);
      assert (a + b)[0] == a[0] && (a + b)[1..] == a[1..] + b;
    }
  }

  /** The loop and the service at work, without anyone recording, closing or failing. */
  ghost predicate Works(a: Action) {
    a.Take? || (a.Proceed? && !a.seesStop) || (a.Return? && a.reply != Failed) || (a.Wake? && !a.seesStop) || (a.Arrive? && a.commits)
  }

  ghost predicate WorksTo(g: Config, s: State, actions: seq<Action>, t: State) {
    && Leads(g, s, actions, t) && (forall i | 0 <= i < |actions| :: Works(actions[i]))
    && Conserved(g, t) && t.entered == s.entered && t.closed == s.closed && t.stopping == s.stopping
  }

  lemma WorksOne(g: Config, s: State, a: Action) returns (t: State)
    requires Conserved(g, s) && Enabled(g, s, a) && Works(a)
    ensures t == Next(g, s, a) && WorksTo(g, s, [a], t)
  {
    t := Next(g, s, a);
    StepConserves(g, s, a);
    assert t.entered == s.entered && t.closed == s.closed && t.stopping == s.stopping by { WorkKeeps(g, s, a); }
    hide Next, Enabled, Conserved;
    assert [a][0] == a && [a][1..] == [] && Leads(g, t, [], t);
  }

  lemma WorkKeeps(g: Config, s: State, a: Action)
    requires Enabled(g, s, a) && Works(a)
    ensures var t := Next(g, s, a); t.entered == s.entered && t.closed == s.closed && t.stopping == s.stopping
  {
    hide AppendTable;
  }

  lemma WorksOn(g: Config, s: State, a: seq<Action>, t: State, b: seq<Action>, u: State)
    requires WorksTo(g, s, a, t) && WorksTo(g, t, b, u)
    ensures WorksTo(g, s, a + b, u)
  {
    hide Leads, Conserved;
    LeadsOn(g, s, a, t, b, u);
  }

  /** The service answers the call in progress: it records the request if it is acceptable, and refuses it otherwise. */
  lemma Answered(g: Config, s: State) returns (actions: seq<Action>, t: State, reply: Reply)
    requires Conserved(g, s) && (s.phase == Calling || s.phase.Splitting?)
    ensures reply != Failed && WorksTo(g, s, actions, t) && Enabled(g, t, Return(reply))
    ensures t == s.(table := t.table, recorded := t.recorded)
  {
    var last := |s.sent| - 1;
    if Acceptable(g, s.sent[last]) {
      reply := Ok;
      t := WorksOne(g, s, Arrive(last, 0, true));
      actions := [Arrive(last, 0, true)];
    } else {
      reply, actions, t := Refused, [], s;
      assert Leads(g, s, [], s);
    }
  }

  lemma {:induction false} FinishesCall(g: Config, s: State) returns (actions: seq<Action>, t: State)
    requires Conserved(g, s) && (s.phase == Calling || s.phase.Splitting?)
    ensures WorksTo(g, s, actions, t) && t.phase == Collecting && t.batch == [] && t.queue == s.queue
    decreases if s.phase == Calling then |s.batch| + 1 else |s.batch| - s.phase.k
  {
    var more, reply;
    actions, t, reply := Answered(g, s);
    var u := WorksOne(g, t, Return(reply));
    WorksOn(g, s, actions, t, [Return(reply)], u);
    ReturnDoes(g, t, reply);
    hide WorksTo;
    actions := actions + [Return(reply)];
    if u.phase == Collecting {
      t := u;
    } else {
      assert Conserved(g, u) by { WorksConserves(g, s, actions, u); }
      more, t := FinishesCall(g, u);
      WorksOn(g, s, actions, u, more, t);
      actions := actions + more;
    }
  }

  lemma WorksConserves(g: Config, s: State, actions: seq<Action>, t: State)
    requires WorksTo(g, s, actions, t)
    ensures Conserved(g, t) && t.entered == s.entered && t.closed == s.closed && t.stopping == s.stopping
  {
  }

  /** From wherever the loop stands, it gets round to an empty batch, with at least one event fewer waiting if there was any. */
  lemma GoesRound(g: Config, s: State) returns (actions: seq<Action>, t: State)
    requires Conserved(g, s) && s.phase == Collecting && s.batch + s.queue != []
    ensures WorksTo(g, s, actions, t) && t.phase == Collecting && t.batch == [] && |t.queue| < |s.batch| + |s.queue|
  {
    var first := s;
    actions := [];
    assert WorksTo(g, s, [], s) by { assert Leads(g, s, [], s); }
    if s.batch == [] && !s.stopping {
      first := WorksOne(g, s, Take);
      actions := [Take];
    }
    var sending := WorksOne(g, first, Proceed(false));
    WorksOn(g, s, actions, first, [Proceed(false)], sending);
    ProceedSends(g, first, false);
    assert sending.batch != [] && |sending.batch| + |sending.queue| == |s.batch| + |s.queue|;
    hide WorksTo;
    actions := actions + [Proceed(false)];
    WorksConserves(g, s, actions, sending);
    var more;
    more, t := FinishesCall(g, sending);
    WorksOn(g, s, actions, sending, more, t);
    actions := actions + more;
  }

  lemma {:induction false} Drains(g: Config, s: State) returns (actions: seq<Action>, t: State)
    requires Conserved(g, s) && s.phase == Collecting
    ensures WorksTo(g, s, actions, t) && t.phase == Collecting && t.batch == t.queue == []
    decreases |s.batch| + |s.queue|
  {
    if s.batch + s.queue == [] {
      actions, t := [], s;
      assert Leads(g, s, [], s);
    } else {
      var more, u;
      actions, u := GoesRound(g, s);
      WorksConserves(g, s, actions, u);
      hide WorksTo;
      more, t := Drains(g, u);
      WorksOn(g, s, actions, u, more, t);
      actions := actions + more;
    }
  }

  lemma DrainsFromAnywhere(g: Config, s: State) returns (actions: seq<Action>, t: State)
    requires Conserved(g, s) && s.phase != Done
    ensures WorksTo(g, s, actions, t) && t.phase == Collecting && t.batch == t.queue == []
  {
    var u, more := s, [];
    actions := [];
    assert WorksTo(g, s, [], s) by { assert Leads(g, s, [], s); }
    if s.phase == Waiting {
      u := WorksOne(g, s, Wake(false));
      actions := [Wake(false)];
    } else if s.phase != Collecting {
      actions, u := FinishesCall(g, s);
    }
    WorksConserves(g, s, actions, u);
    more, t := Drains(g, u);
    WorksOn(g, s, actions, u, more, t);
    actions := actions + more;
  }

  lemma {:induction false} LeadsDelivers(g: Config, s: State, f: nat, actions: seq<Action>, t: State) returns (f': nat)
    requires Delivers(g, s, f) && Leads(g, s, actions, t)
    ensures Delivers(g, t, f')
    decreases |actions|
  {
    hide Enabled, Next, Delivers;
    if actions == [] {
      f' := f;
    } else {
      f' := StepDelivers(g, s, f, actions[0]);
      f' := LeadsDelivers(g, Next(g, s, actions[0]), f', actions[1..], t);
    }
  }

  lemma TrailHoldsValidOnly(g: Config, s: State, f: nat, e: Event)
    requires TrailsDeliver(g, s, f) && e in s.entered && InTrail(s, e)
    ensures g.valid(e)
  {
    var mine, due := Mine(TrailOf(s, e.tenantId), s.entered), Due(g, s.entered[..f], e.tenantId);
    assert e in mine by { KeepIn(TrailOf(s, e.tenantId), x => x in s.entered); }
    assert e in due ==> g.valid(e) by { KeepIn(s.entered[..f], x => g.valid(x) && x.tenantId == e.tenantId); }
  }

  /** In every run, from every state before the loop has returned, the loop and a service that answers can deliver everything that
      entered, without anyone's help: then nothing waits, every valid event is in its tenant's trail, and every other one is logged. */
  lemma EverythingCanBeDelivered(g: Config, states: seq<State>, actions: seq<Action>, n: nat) returns (more: seq<Action>, t: State)
    requires Run(g, states, actions) && n < |states| && states[n].phase != Done
    ensures Leads(g, states[n], more, t) && forall i | 0 <= i < |more| :: Works(more[i])
    ensures t.phase == Collecting && t.batch == t.queue == [] && t.entered == states[n].entered
    ensures forall e | e in t.entered :: if g.valid(e) then InTrail(t, e) else e in t.logged
  {
    hide Run, Leads, InTrail;
    var s := states[n];
    var f := RunDelivers(g, states, actions, n);
    more, t := DrainsFromAnywhere(g, s);
    f := LeadsDelivers(g, s, f, more, t);
    assert t.entered[..t.settled] == t.entered;
    forall e | e in t.entered ensures if g.valid(e) then InTrail(t, e) else e in t.logged {
      if !g.valid(e) && InTrail(t, e) {
        TrailHoldsValidOnly(g, t, f, e);
      }
      var i :| 0 <= i < |t.entered| && t.entered[i] == e;
    }
  }

  /** And if the recorder was closed, the loop then returns. */
  lemma ClosedLoopReturns(g: Config, t: State)
    requires Conserved(g, t) && t.phase == Collecting && t.batch == t.queue == [] && t.closed
    ensures var a := Proceed(!t.stopping);
            Enabled(g, t, a) && Next(g, t, a) == t.(stopping := true, phase := Done)
  {
  }

  /** Fresh ids: an event is not in a trail before it is recorded. */
  lemma FreshIsNotMine(s: State, e: Event, t: Bytes)
    requires !UsedId(s.table, e.eventId)
    ensures forall x | x in TrailOf(s, t) :: x.eventId != e.eventId
  {
    forall x | x in TrailOf(s, t) ensures x.eventId != e.eventId {
      var i :| 0 <= i < |RowsIn(s.table, t)| && TrailOf(s, t)[i] == x;
      assert RowsIn(s.table, t)[i] in s.table[t];
    }
  }
}
