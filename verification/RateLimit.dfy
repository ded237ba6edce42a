/** The per-address token buckets that guard the anonymous endpoints. */
module RateLimit {
  import opened Sizes

  /** An address has up to `burst` tokens, which come back at `perSecond`; no more than `maxAddresses` are remembered. */
  datatype Limits = Limits(burst: real, perSecond: real, maxAddresses: nat)

  const MAX_ADDRESSES: nat := 100_000

  datatype Bucket = Bucket(tokens: real, last: real)

  type Buckets = map<string, Bucket>

  ghost predicate ValidLimits(g: Limits) {
    g.burst >= 0.0 && g.perSecond >= 0.0 && g.maxAddresses > 0
  }

  function Min(a: real, b: real): real {
    if a < b then a else b
  }

  /** Tokens that trickle in over a stretch of time. */
  function Accrued(g: Limits, since: real, now: real): real {
    (now - since) * g.perSecond
  }

  lemma AccruedAdds(g: Limits, since: real, now: real, later: real)
    requires ValidLimits(g) && now <= later
    ensures Accrued(g, since, later) == Accrued(g, since, now) + Accrued(g, now, later)
    ensures Accrued(g, now, later) >= 0.0 && Accrued(g, now, now) == 0.0
  {
  }

  lemma NothingAccrued(g: Limits, now: real)
    ensures Accrued(g, now, now) == 0.0
  {
  }

  function Refilled(g: Limits, b: Bucket, now: real): real {
    Min(g.burst, b.tokens + Accrued(g, b.last, now))
  }

  predicate Full(g: Limits, b: Bucket, now: real) {
    b.tokens + Accrued(g, b.last, now) >= g.burst
  }

  function NotFull(g: Limits, buckets: Buckets, now: real): Buckets {
    map a | a in buckets && !Full(g, buckets[a], now) :: buckets[a]
  }

  function Swept(g: Limits, buckets: Buckets, now: real): Buckets {
    var kept := NotFull(g, buckets, now);
    if |kept| >= g.maxAddresses then map[] else kept
  }

  /** The buckets a request sees: swept first when its address is new and there is no room. */
  function Room(g: Limits, buckets: Buckets, address: string, now: real): Buckets {
    if address !in buckets && |buckets| >= g.maxAddresses then Swept(g, buckets, now) else buckets
  }

  /** Every bucket was in use, and the limiter starts over. */
  predicate Clears(g: Limits, buckets: Buckets, address: string, now: real) {
    address !in buckets && |buckets| >= g.maxAddresses && |NotFull(g, buckets, now)| >= g.maxAddresses
  }

  /** Tokens an address can take now; an address without a bucket has a full one. */
  function Available(g: Limits, buckets: Buckets, address: string, now: real): real {
    if address in buckets then Refilled(g, buckets[address], now) else g.burst
  }

  /** The buckets after a request, and whether it is allowed. */
  function Allowed(g: Limits, buckets: Buckets, address: string, now: real): (Buckets, bool) {
    var room := Room(g, buckets, address, now);
    var tokens := Available(g, room, address, now);
    if tokens < 1.0 then (room[address := Bucket(tokens, now)], false) else (room[address := Bucket(tokens - 1.0, now)], true)
  }

  /** Buckets hold between nothing and a burst, and were last touched in the past. */
  ghost predicate ValidBuckets(g: Limits, buckets: Buckets, now: real) {
    && |buckets| <= g.maxAddresses
    && forall a | a in buckets :: ValidBucket(g, buckets[a], now)
  }

  ghost predicate ValidBucket(g: Limits, b: Bucket, now: real) {
    0.0 <= b.tokens <= g.burst && b.last <= now
  }

  class Limiter {
    const g: Limits
    var buckets: Buckets

    ghost predicate Valid(now: real)
      reads this
    {
      ValidLimits(g) && ValidBuckets(g, buckets, now)
    }

    constructor (burst: int, perMinute: real, now: real)
      ensures buckets == map[] && g == Limits(burst as real, perMinute / 60.0, MAX_ADDRESSES)
      ensures Valid(now) <==> burst >= 0 && perMinute >= 0.0
    {
      g := Limits(burst as real, perMinute / 60.0, MAX_ADDRESSES);
      buckets := map[];
    }

    /** Answers a request: whether the address had a token, which is then gone. */
    method Allow(address: string, now: real) returns (ok: bool)
      modifies this`buckets
      ensures (buckets, ok) == Allowed(g, old(buckets), address, now)
      ensures old(Valid(now)) ==> Valid(now)
    {
      hide Accrued;
      if Valid(now) {
        AllowedKeepsValid(g, buckets, address, now);
      }
      NothingAccrued(g, now);
      if address !in buckets {
        if |buckets| >= g.maxAddresses {
          Sweep(now);
        }
        buckets := buckets[address := Bucket(g.burst, now)];
      }
      ghost var room := Room(g, old(buckets), address, now);
      var b := buckets[address];
      b := Bucket(Min(g.burst, b.tokens + Accrued(g, b.last, now)), now);
      assert buckets[address := b] == room[address := b];
      assert buckets[address := b.(tokens := b.tokens - 1.0)] == room[address := b.(tokens := b.tokens - 1.0)];
      if b.tokens < 1.0 {
        buckets := buckets[address := b];
        return false;
      }
      buckets := buckets[address := b.(tokens := b.tokens - 1.0)];
      ok := true;
    }

    /** Forgets the addresses that have a full burst again, or all of them when that makes no room. */
    method Sweep(now: real)
      modifies this`buckets
      ensures buckets == Swept(g, old(buckets), now)
    {
      var addresses := buckets.Keys;
      while addresses != {}
        invariant addresses <= old(buckets).Keys
        invariant forall a :: a in buckets <==> a in old(buckets) && (a in addresses || !Full(g, old(buckets)[a], now))
        invariant forall a | a in buckets :: buckets[a] == old(buckets)[a]
        decreases addresses
      {
        var address :| address in addresses;
        addresses := addresses - {address};
        var b := buckets[address];
        if b.tokens + Accrued(g, b.last, now) >= g.burst {
          buckets := buckets - {address};
        }
      }
      assert buckets == NotFull(g, old(buckets), now);
      if |buckets| >= g.maxAddresses {
        buckets := map[];
      }
    }
  }

  lemma RefillIsValid(g: Limits, b: Bucket, now: real)
    requires ValidLimits(g) && ValidBucket(g, b, now)
    ensures 0.0 <= Refilled(g, b, now) <= g.burst
  {
    hide Accrued;
    AccruedAdds(g, b.last, b.last, now);
  }

  /** After a sweep there is room for one more address. */
  lemma RoomKeepsValid(g: Limits, buckets: Buckets, address: string, now: real)
    requires ValidLimits(g) && ValidBuckets(g, buckets, now)
    ensures var room := Room(g, buckets, address, now);
            && ValidBuckets(g, room, now) && (address in room || |room| < g.maxAddresses)
            && forall a | a in room :: a in buckets && room[a] == buckets[a]
  {
    hide Full, Accrued;
    assert NotFull(g, buckets, now).Keys <= buckets.Keys;
    SubsetSize(NotFull(g, buckets, now).Keys, buckets.Keys);
  }

  /** The map never grows past its bound, in any run. */
  lemma AllowedKeepsValid(g: Limits, buckets: Buckets, address: string, now: real)
    requires ValidLimits(g) && ValidBuckets(g, buckets, now)
    ensures ValidBuckets(g, Allowed(g, buckets, address, now).0, now)
  {
    hide Refilled, Full, Accrued;
    var room := Room(g, buckets, address, now);
    RoomKeepsValid(g, buckets, address, now);
    var r := Allowed(g, buckets, address, now).0;
    OneMore(room, address, r[address]);
    assert r == room[address := r[address]];
    if address in room {
      RefillIsValid(g, room[address], now);
    }
  }

  // ----- against a limiter that keeps every bucket -----

  /** The same limiter without a bound on addresses. */
  function KeepAll(g: Limits, all: Buckets, address: string, now: real): (Buckets, bool) {
    var tokens := Available(g, all, address, now);
    if tokens < 1.0 then (all[address := Bucket(tokens, now)], false) else (all[address := Bucket(tokens - 1.0, now)], true)
  }

  /** What was dropped is full. */
  ghost predicate DroppedAreFull(g: Limits, buckets: Buckets, all: Buckets, now: real) {
    && (forall a | a in buckets :: a in all && all[a] == buckets[a])
    && (forall a | a in all && a !in buckets :: Full(g, all[a], now))
    && (forall a | a in all :: all[a].last <= now)
  }

  lemma FullStaysFull(g: Limits, b: Bucket, now: real, later: real)
    requires ValidLimits(g) && now <= later && Full(g, b, now)
    ensures Full(g, b, later)
  {
    hide Accrued;
    AccruedAdds(g, b.last, now, later);
  }

  lemma DroppedStayFull(g: Limits, buckets: Buckets, all: Buckets, now: real, later: real)
    requires ValidLimits(g) && now <= later && DroppedAreFull(g, buckets, all, now)
    ensures DroppedAreFull(g, buckets, all, later)
  {
    hide Full;
    forall a | a in all && a !in buckets ensures Full(g, all[a], later) {
      FullStaysFull(g, all[a], now, later);
    }
  }

  /** Unless everything is cleared, the answer is the one of the limiter that keeps all, and what was dropped stays full. */
  lemma DroppingChangesNoAnswer(g: Limits, buckets: Buckets, all: Buckets, address: string, now: real)
    requires ValidLimits(g) && DroppedAreFull(g, buckets, all, now) && !Clears(g, buckets, address, now)
    ensures var (b, ok) := Allowed(g, buckets, address, now);
            var (k, answer) := KeepAll(g, all, address, now);
            ok == answer && DroppedAreFull(g, b, k, now)
  {
    hide Accrued;
    var room := Room(g, buckets, address, now);
    AccruedAdds(g, now, now, now);
    assert DroppedAreFull(g, room, all, now);
    assert Available(g, room, address, now) == Available(g, all, address, now);
  }

  // ----- the bound -----

  datatype Request = Request(address: string, time: real)

  ghost predicate IsRun(g: Limits, requests: seq<Request>, states: seq<Buckets>) {
    && ValidLimits(g) && |states| == |requests| + 1 && states[0] == map[]
    && (forall i, j | 0 <= i < j < |requests| :: requests[i].time <= requests[j].time)
    && (forall i | 0 <= i < |requests| :: states[i + 1] == Allowed(g, states[i], requests[i].address, requests[i].time).0)
  }

  ghost predicate KeepsAll(g: Limits, requests: seq<Request>, all: seq<Buckets>) {
    && |all| == |requests| + 1 && all[0] == map[]
    && (forall i | 0 <= i < |requests| :: all[i + 1] == KeepAll(g, all[i], requests[i].address, requests[i].time).0)
  }

  /** As long as nothing was cleared, every request gets the answer of a limiter that keeps every bucket. */
  lemma {:induction false} SameAnswersAsKeepingAll(g: Limits, requests: seq<Request>, states: seq<Buckets>, all: seq<Buckets>, n: nat)
    requires IsRun(g, requests, states) && KeepsAll(g, requests, all) && n < |requests|
    requires forall i | 0 <= i <= n :: !Clears(g, states[i], requests[i].address, requests[i].time)
    ensures var q := requests[n];
            && Allowed(g, states[n], q.address, q.time).1 == KeepAll(g, all[n], q.address, q.time).1
            && DroppedAreFull(g, states[n + 1], all[n + 1], q.time)
  {
    hide Allowed, KeepAll, DroppedAreFull, Clears;
    var q := requests[n];
    if n == 0 {
      assert DroppedAreFull(g, map[], map[], q.time) by { NothingDropped(g, q.time); }
    } else {
      SameAnswersAsKeepingAll(g, requests, states, all, n - 1);
      DroppedStayFull(g, states[n], all[n], requests[n - 1].time, q.time);
    }
    DroppingChangesNoAnswer(g, states[n], all[n], q.address, q.time);
  }

  lemma NothingDropped(g: Limits, now: real)
    ensures DroppedAreFull(g, map[], map[], now)
  {
  }

  /** Whether request `i` is one of the address and allowed. */
  ghost predicate Counts(g: Limits, requests: seq<Request>, states: seq<Buckets>, i: nat, address: string)
    requires i < |requests| && |states| == |requests| + 1
  {
    requests[i].address == address && Allowed(g, states[i], address, requests[i].time).1
  }

  ghost function AllowedIn(g: Limits, requests: seq<Request>, states: seq<Buckets>, i: nat, j: nat, address: string): nat
    requires i <= j <= |requests| && |states| == |requests| + 1
  {
    if i == j then 0
    else AllowedIn(g, requests, states, i, j - 1, address) + if Counts(g, requests, states, j - 1, address) then 1 else 0
  }

  ghost function ClearsIn(g: Limits, requests: seq<Request>, states: seq<Buckets>, i: nat, j: nat): nat
    requires i <= j <= |requests| && |states| == |requests| + 1
  {
    if i == j then 0
    else ClearsIn(g, requests, states, i, j - 1)
         + if Clears(g, states[j - 1], requests[j - 1].address, requests[j - 1].time) then 1 else 0
  }

  lemma {:induction false} RunIsValid(g: Limits, requests: seq<Request>, states: seq<Buckets>, n: nat, now: real)
    requires IsRun(g, requests, states) && n < |states| && (n > 0 ==> requests[n - 1].time <= now)
    ensures ValidBuckets(g, states[n], now)
  {
    if n > 0 {
      hide Allowed;
      var t := requests[n - 1].time;
      RunIsValid(g, requests, states, n - 1, t);
      AllowedKeepsValid(g, states[n - 1], requests[n - 1].address, t);
      forall a | a in states[n] ensures ValidBucket(g, states[n][a], now) {
        assert ValidBucket(g, states[n][a], t);
      }
    }
  }

  /** Sweeping changes what no address has, unless it clears. */
  lemma SweepGivesNothing(g: Limits, buckets: Buckets, address: string, sender: string, now: real)
    requires ValidLimits(g) && ValidBuckets(g, buckets, now)
    ensures Available(g, Room(g, buckets, sender, now), address, now)
            <= Available(g, buckets, address, now) + if Clears(g, buckets, sender, now) then g.burst else 0.0
  {
    hide Accrued;
    AvailableNotNegative(g, buckets, address, now);
  }

  /** What one request does to what an address has: an allowed one takes a token, a clear may give a burst. */
  lemma OneRequest(g: Limits, buckets: Buckets, address: string, sender: string, now: real)
    requires ValidLimits(g) && ValidBuckets(g, buckets, now)
    ensures var (b, ok) := Allowed(g, buckets, sender, now);
            Available(g, b, address, now) + (if sender == address && ok then 1.0 else 0.0)
            <= Available(g, buckets, address, now) + if Clears(g, buckets, sender, now) then g.burst else 0.0
  {
    hide Accrued, Clears, Room;
    AccruedAdds(g, now, now, now);
    SweepGivesNothing(g, buckets, address, sender, now);
    AvailableAtMostBurst(g, Room(g, buckets, sender, now), sender, now);
  }

  /** Time passing gives at most what it refills. */
  lemma TimePasses(g: Limits, buckets: Buckets, address: string, now: real, later: real)
    requires ValidLimits(g) && now <= later
    ensures Available(g, buckets, address, later) <= Available(g, buckets, address, now) + Accrued(g, now, later)
  {
    hide Accrued;
    AccruedAdds(g, now, now, later);
    if address in buckets {
      AccruedAdds(g, buckets[address].last, now, later);
    }
  }

  lemma {:induction false} AllowedPlusAvailable(g: Limits, requests: seq<Request>, states: seq<Buckets>, i: nat, j: nat, address: string)
    requires IsRun(g, requests, states) && i < j <= |requests|
    ensures AllowedIn(g, requests, states, i, j, address) as real + Available(g, states[j], address, requests[j - 1].time)
            <= Bursts(g, 1 + ClearsIn(g, requests, states, i, j)) + Accrued(g, requests[i].time, requests[j - 1].time)
    decreases j
  {
    hide Allowed, Clears, Available, Accrued;
    var r := requests[j - 1];
    RunIsValid(g, requests, states, j - 1, r.time);
    OneRequest(g, states[j - 1], address, r.address, r.time);
    if i == j - 1 {
      AvailableAtMostBurst(g, states[i], address, r.time);
      AccruedAdds(g, r.time, r.time, r.time);
      assert AllowedIn(g, requests, states, i, i, address) == 0 && ClearsIn(g, requests, states, i, i) == 0;
      assert Bursts(g, 1) == g.burst + Bursts(g, 0) && Bursts(g, 2) == g.burst + Bursts(g, 1);
    } else {
      AllowedPlusAvailable(g, requests, states, i, j - 1, address);
      TimePasses(g, states[j - 1], address, requests[j - 2].time, r.time);
      AccruedAdds(g, requests[i].time, requests[j - 2].time, r.time);
    }
  }

  /** `n` bursts. */
  function Bursts(g: Limits, n: nat): real {
    if n == 0 then 0.0 else g.burst + Bursts(g, n - 1)
  }

  lemma AvailableAtMostBurst(g: Limits, buckets: Buckets, address: string, now: real)
    ensures Available(g, buckets, address, now) <= g.burst
  {
  }

  /** In every run, the requests allowed for one address over any stretch of it number at most the burst plus the rate times
      the stretch's length, and a burst more for every time the limiter had to start over in it. */
  lemma AllowedAtMost(g: Limits, requests: seq<Request>, states: seq<Buckets>, i: nat, j: nat, address: string)
    requires IsRun(g, requests, states) && i < j <= |requests|
    ensures AllowedIn(g, requests, states, i, j, address) as real
            <= g.burst * (1 + ClearsIn(g, requests, states, i, j)) as real
               + (requests[j - 1].time - requests[i].time) * g.perSecond
  {
    hide Allowed, Clears, Available;
    var n := 1 + ClearsIn(g, requests, states, i, j);
    BurstsMultiply(g, n);
    AllowedPlusAvailable(g, requests, states, i, j, address);
    RunIsValid(g, requests, states, j, requests[j - 1].time);
    AvailableNotNegative(g, states[j], address, requests[j - 1].time);
    assert AllowedIn(g, requests, states, i, j, address) as real
        <= Bursts(g, n) + Accrued(g, requests[i].time, requests[j - 1].time);
  }

  lemma BurstsMultiply(g: Limits, n: nat)
    ensures Bursts(g, n) == g.burst * n as real
  {
    if n > 0 {
      BurstsMultiply(g, n - 1);
      assert g.burst * n as real == g.burst * (n - 1) as real + g.burst * 1.0;
    }
  }

  lemma AvailableNotNegative(g: Limits, buckets: Buckets, address: string, now: real)
    requires ValidLimits(g) && ValidBuckets(g, buckets, now)
    ensures Available(g, buckets, address, now) >= 0.0
  {
    if address in buckets {
      RefillIsValid(g, buckets[address], now);
    }
  }

  // ----- exactly who is allowed -----

  /** The tokens an address had left when it last asked. */
  datatype Account = Account(tokens: real, at: real)

  /** What an address has: its rest and what time gave back since, up to the burst; the burst if it never asked. */
  function Has(g: Limits, accounts: map<string, Account>, address: string, now: real): real {
    if address !in accounts then g.burst
    else
      var refilled := accounts[address].tokens + (now - accounts[address].at) * g.perSecond;
      if refilled < g.burst then refilled else g.burst
  }

  /** The addresses short of a full burst. */
  function Short(g: Limits, accounts: map<string, Account>, now: real): set<string> {
    set a | a in accounts && Has(g, accounts, a, now) < g.burst
  }

  /** What is remembered when a request comes: everything, unless as many addresses as can be remembered are short, and the
      request is of none of them; then nothing. */
  function Remembered(g: Limits, accounts: map<string, Account>, q: Request): map<string, Account> {
    if q.address !in Short(g, accounts, q.time) && |Short(g, accounts, q.time)| >= g.maxAddresses then map[] else accounts
  }

  function Charged(g: Limits, accounts: map<string, Account>, q: Request): map<string, Account> {
    var kept := Remembered(g, accounts, q);
    var has := Has(g, kept, q.address, q.time);
    kept[q.address := Account(if has >= 1.0 then has - 1.0 else has, q.time)]
  }

  /** The accounts after `n` requests, with no limit on how many are kept. */
  function Accounts(g: Limits, requests: seq<Request>, n: nat): map<string, Account>
    requires n <= |requests|
  {
    if n == 0 then map[] else Charged(g, Accounts(g, requests, n - 1), requests[n - 1])
  }

  /** The buckets are accounts, and the accounts without a bucket are full. */
  ghost predicate Accounted(g: Limits, buckets: Buckets, accounts: map<string, Account>, now: real) {
    && (forall a | a in buckets :: a in accounts && accounts[a] == Account(buckets[a].tokens, buckets[a].last))
    && (forall a | a in accounts && a !in buckets :: Has(g, accounts, a, now) == g.burst)
    && (forall a | a in accounts :: accounts[a].at <= now)
  }

  lemma HasGrows(g: Limits, accounts: map<string, Account>, a: string, now: real, later: real)
    requires ValidLimits(g) && now <= later
    ensures Has(g, accounts, a, now) <= Has(g, accounts, a, later) <= g.burst
  {
    if a in accounts {
      var at := accounts[a].at;
      assert (later - at) * g.perSecond == (now - at) * g.perSecond + (later - now) * g.perSecond;
    }
  }

  lemma AccountedLater(g: Limits, buckets: Buckets, accounts: map<string, Account>, now: real, later: real)
    requires ValidLimits(g) && now <= later && Accounted(g, buckets, accounts, now)
    ensures Accounted(g, buckets, accounts, later)
  {
    hide Has;
    forall a | a in accounts && a !in buckets ensures Has(g, accounts, a, later) == g.burst { HasGrows(g, accounts, a, now, later); }
  }

  lemma HasIsAvailable(g: Limits, buckets: Buckets, accounts: map<string, Account>, a: string, now: real)
    requires Accounted(g, buckets, accounts, now)
    ensures Available(g, buckets, a, now) == Has(g, accounts, a, now)
    ensures a in Short(g, accounts, now) <==> a in buckets && !Full(g, buckets[a], now)
  {
  }

  /** The limiter starts over exactly when the accounts say so. */
  lemma ClearsIffForgotten(g: Limits, buckets: Buckets, accounts: map<string, Account>, q: Request)
    requires ValidLimits(g) && |buckets| <= g.maxAddresses && Accounted(g, buckets, accounts, q.time)
    ensures Clears(g, buckets, q.address, q.time) <==>
            q.address !in Short(g, accounts, q.time) && |Short(g, accounts, q.time)| >= g.maxAddresses
  {
    hide Full, Has;
    var busy := NotFull(g, buckets, q.time);
    forall a ensures a in Short(g, accounts, q.time) <==> a in busy { HasIsAvailable(g, buckets, accounts, a, q.time); }
    assert busy.Keys == Short(g, accounts, q.time) && |busy| == |busy.Keys| && |buckets| == |buckets.Keys|;
    if |busy| >= g.maxAddresses {
      AsLargeIsAll(busy.Keys, buckets.Keys);
    }
  }

  lemma RoomAccounted(g: Limits, buckets: Buckets, accounts: map<string, Account>, q: Request)
    requires ValidLimits(g) && |buckets| <= g.maxAddresses && Accounted(g, buckets, accounts, q.time)
    ensures Accounted(g, Room(g, buckets, q.address, q.time), Remembered(g, accounts, q), q.time)
  {
    ClearsIffForgotten(g, buckets, accounts, q);
    hide Short, Full;
    var room := Room(g, buckets, q.address, q.time);
    if !Clears(g, buckets, q.address, q.time) {
      forall a | a in accounts && a !in room ensures Has(g, accounts, a, q.time) == g.burst {
        if a in buckets {
          assert Full(g, buckets[a], q.time);
          FullHasBurst(g, buckets, accounts, a, q.time);
        }
      }
    }
  }

  lemma FullHasBurst(g: Limits, buckets: Buckets, accounts: map<string, Account>, a: string, now: real)
    requires Accounted(g, buckets, accounts, now) && a in buckets && Full(g, buckets[a], now)
    ensures Has(g, accounts, a, now) == g.burst
  {
  }

  lemma ChargeAccounted(g: Limits, buckets: Buckets, accounts: map<string, Account>, q: Request)
    requires ValidLimits(g) && |buckets| <= g.maxAddresses && Accounted(g, buckets, accounts, q.time)
    ensures var (b, ok) := Allowed(g, buckets, q.address, q.time);
            && Accounted(g, b, Charged(g, accounts, q), q.time)
            && (ok <==> Has(g, Remembered(g, accounts, q), q.address, q.time) >= 1.0)
  {
    hide Room, Remembered, Short;
    RoomAccounted(g, buckets, accounts, q);
    var room, kept := Room(g, buckets, q.address, q.time), Remembered(g, accounts, q);
    HasIsAvailable(g, room, kept, q.address, q.time);
    hide Available, Has;
    var after := Charged(g, accounts, q);
    forall a | a in after && a != q.address ensures Has(g, after, a, q.time) == Has(g, kept, a, q.time) { SameAccount(g, after, kept, a, q.time); }
  }

  lemma SameAccount(g: Limits, x: map<string, Account>, y: map<string, Account>, a: string, now: real)
    requires a in x && a in y && x[a] == y[a]
    ensures Has(g, x, a, now) == Has(g, y, a, now)
  {
  }

  lemma {:induction false} RunAccounted(g: Limits, requests: seq<Request>, states: seq<Buckets>, n: nat, now: real)
    requires IsRun(g, requests, states) && n < |states| && (n > 0 ==> requests[n - 1].time <= now)
    ensures Accounted(g, states[n], Accounts(g, requests, n), now)
  {
    hide Allowed, Charged, Accounted;
    if n == 0 {
      NoneAccounted(g, now);
    } else {
      var q := requests[n - 1];
      RunAccounted(g, requests, states, n - 1, q.time);
      RunIsValid(g, requests, states, n - 1, q.time);
      ChargeAccounted(g, states[n - 1], Accounts(g, requests, n - 1), q);
      AccountedLater(g, states[n], Accounts(g, requests, n), q.time, now);
    }
  }

  lemma NoneAccounted(g: Limits, now: real)
    ensures Accounted(g, map[], map[], now)
  {
  }

  /** In every run a request is allowed exactly when its address has a token by its own account: a burst to start with, the
      rate times every gap given back up to the burst, one taken by every request allowed; and everything is forgotten exactly when
      as many addresses as can be remembered are short of a burst and another one asks. */
  lemma AllowedIff(g: Limits, requests: seq<Request>, states: seq<Buckets>, n: nat)
    requires IsRun(g, requests, states) && n < |requests|
    ensures var q, accounts := requests[n], Accounts(g, requests, n);
            && (Allowed(g, states[n], q.address, q.time).1 <==> Has(g, Remembered(g, accounts, q), q.address, q.time) >= 1.0)
            && (Clears(g, states[n], q.address, q.time) <==>
                q.address !in Short(g, accounts, q.time) && |Short(g, accounts, q.time)| >= g.maxAddresses)
  {
    hide Allowed, Charged, Accounted, Has, Clears, Short, Remembered;
    var q := requests[n];
    RunAccounted(g, requests, states, n, q.time);
    RunIsValid(g, requests, states, n, q.time);
    ChargeAccounted(g, states[n], Accounts(g, requests, n), q);
    ClearsIffForgotten(g, states[n], Accounts(g, requests, n), q);
  }

  lemma RememberedAllOrNothing(g: Limits, accounts: map<string, Account>, q: Request)
    ensures Remembered(g, accounts, q) == accounts || Remembered(g, accounts, q) == map[]
  {
  }

  lemma HasNotNegative(g: Limits, accounts: map<string, Account>, a: string, now: real)
    requires ValidLimits(g) && (a in accounts ==> accounts[a].tokens >= 0.0 && accounts[a].at <= now)
    ensures Has(g, accounts, a, now) >= 0.0
  {
    if a in accounts {
      NotNegative(accounts[a].tokens, now - accounts[a].at, g.perSecond);
    }
  }

  lemma NotNegative(tokens: real, gap: real, rate: real)
    requires tokens >= 0.0 && gap >= 0.0 && rate >= 0.0
    ensures tokens + gap * rate >= 0.0
  {
  }

  ghost predicate LastAsked(requests: seq<Request>, n: nat, a: string, account: Account) {
    account.tokens >= 0.0 && exists i | 0 <= i < n && i < |requests| :: requests[i].address == a && requests[i].time == account.at
  }

  /** An account is never overdrawn, and dates from a request of its address. */
  lemma {:induction false} AccountsAreSound(g: Limits, requests: seq<Request>, states: seq<Buckets>, n: nat, a: string)
    requires IsRun(g, requests, states) && n <= |requests| && a in Accounts(g, requests, n)
    ensures LastAsked(requests, n, a, Accounts(g, requests, n)[a])
  {
    hide Has, Short, Remembered, Allowed;
    var q, before := requests[n - 1], Accounts(g, requests, n - 1);
    var kept := Remembered(g, before, q);
    RememberedAllOrNothing(g, before, q);
    if a in before {
      AccountsAreSound(g, requests, states, n - 1, a);
    }
    assert Accounts(g, requests, n) == Charged(g, before, q);
    if a == q.address {
      HasNotNegative(g, kept, a, q.time);
      assert requests[n - 1].address == a && requests[n - 1].time == Accounts(g, requests, n)[a].at;
    } else {
      assert a in kept && Accounts(g, requests, n)[a] == before[a];
    }
  }

  lemma HasOne(g: Limits, accounts: map<string, Account>, a: string, now: real)
    requires g.burst >= 1.0 && (a in accounts ==> accounts[a].tokens >= 0.0 && (now - accounts[a].at) * g.perSecond >= 1.0)
    ensures Has(g, accounts, a, now) >= 1.0
  {
    if a in accounts {
      var back := (now - accounts[a].at) * g.perSecond;
      assert accounts[a].tokens + back >= 1.0;
    }
  }

  /** With a burst of at least one, an address silent for as long as a token takes to come back is allowed. */
  lemma SilentIsAllowed(g: Limits, requests: seq<Request>, states: seq<Buckets>, n: nat)
    requires IsRun(g, requests, states) && n < |requests| && g.burst >= 1.0
    requires forall i | 0 <= i < n && requests[i].address == requests[n].address ::
               (requests[n].time - requests[i].time) * g.perSecond >= 1.0
    ensures Allowed(g, states[n], requests[n].address, requests[n].time).1
  {
    hide Allowed, Clears, Has, Short, Remembered, Charged;
    AllowedIff(g, requests, states, n);
    var q, accounts := requests[n], Accounts(g, requests, n);
    RememberedAllOrNothing(g, accounts, q);
    if q.address in accounts {
      hide IsRun;
      AccountsAreSound(g, requests, states, n, q.address);
      var i :| 0 <= i < n && requests[i].address == q.address && requests[i].time == accounts[q.address].at;
      assert (requests[n].time - requests[i].time) * g.perSecond >= 1.0;
    }
    HasOne(g, Remembered(g, accounts, q), q.address, q.time);
  }
}
