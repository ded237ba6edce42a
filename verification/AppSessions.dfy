/** App sessions: refresh tokens that rotate, a grace period for lost responses, and reuse
    that ends the session. Tokens appear as their stored hashes. */
module AppSessions {
  import opened ByteStrings
  import opened Options

  type Token = Bytes
  type Id = Bytes

  datatype Session = Session(tenantId: Bytes, userId: Bytes, refresh: Token, previous: Option<Token>, rotatedAt: Option<int>,
                             expiresAt: int, revokedAt: Option<int>, reason: Option<EndReason>)

  /** Why a session was ended before it expired. */
  datatype EndReason = SignedOut | RevokedByUser | TokenReused

  datatype Code = Code(tenantId: Bytes, userId: Bytes, expiresAt: int, redeemedAt: Option<int>, sessionId: Option<Id>)

  datatype Outcome = Rotated | Retried | Reused | NotFound | Conflict

  type Sessions = map<Id, Session>

  predicate Holds(s: Session, t: Token) {
    s.refresh == t || s.previous == Some(t)
  }

  /** The session a presented token selects: one that holds it and is neither ended nor expired. */
  predicate Answers(s: Session, t: Token, now: int) {
    Holds(s, t) && s.revokedAt.None? && s.expiresAt > now
  }

  /** The previous token was rotated less than `grace` ago. */
  predicate InGrace(s: Session, now: int, grace: int) {
    s.rotatedAt.Some? && s.rotatedAt.value > now - grace
  }

  function OutcomeOf(s: Session, t: Token, now: int, grace: int): Outcome {
    if s.refresh == t then Rotated else if InGrace(s, now, grace) then Retried else Reused
  }

  function EndedSession(s: Session, now: int, reason: EndReason): Session {
    s.(revokedAt := Some(now), reason := Some(reason))
  }

  function Refreshed(s: Session, t: Token, next: Token, now: int, ttl: int, grace: int): Session {
    match OutcomeOf(s, t, now, grace)
    case Rotated => s.(previous := Some(s.refresh), refresh := next, rotatedAt := Some(now), expiresAt := now + ttl)
    case Retried => s.(refresh := next)
    case _ => EndedSession(s, now, TokenReused)
  }

  /** The columns' UNIQUE constraints, for a row about to be written. */
  predicate Unique(sessions: Sessions, id: Id, s: Session) {
    forall k | k in sessions && k != id ::
      sessions[k].refresh != s.refresh && (s.previous.None? || sessions[k].previous != s.previous)
  }

  /** One refresh, as the database sees it. */
  ghost predicate Refreshes(sessions: Sessions, t: Token, next: Token, now: int, ttl: int, grace: int,
                            outcome: Outcome, id: Id, sessions': Sessions) {
    match outcome
    case NotFound => sessions' == sessions && forall k | k in sessions :: !Answers(sessions[k], t, now)
    case Conflict =>
      && sessions' == sessions && id in sessions && Answers(sessions[id], t, now)
      && !Unique(sessions, id, Refreshed(sessions[id], t, next, now, ttl, grace))
    case _ =>
      && id in sessions && Answers(sessions[id], t, now) && outcome == OutcomeOf(sessions[id], t, now, grace)
      && sessions' == sessions[id := Refreshed(sessions[id], t, next, now, ttl, grace)]
  }

  function Ended(s: Session): int {
    if s.revokedAt.Some? then s.revokedAt.value else s.expiresAt
  }

  function Kept(sessions: Sessions, now: int, keep: int): Sessions {
    map id | id in sessions && Ended(sessions[id]) >= now - keep :: sessions[id]
  }

  class Store {
    var sessions: Sessions
    var codes: map<Token, Code>

    constructor ()
      ensures sessions == map[] && codes == map[]
    {
      sessions, codes := map[], map[];
    }

    /** A code that is good once, and in time, becomes a session of its owner. */
    method RedeemPairingCode(code: Token, id: Id, refresh: Token, expiresAt: int, now: int) returns (ok: bool)
      modifies this
      ensures ok <==> code in old(codes) && old(codes)[code].redeemedAt.None? && old(codes)[code].expiresAt > now
                      && id !in old(sessions) && forall k | k in old(sessions) :: old(sessions)[k].refresh != refresh
      ensures ok ==> codes == old(codes)[code := old(codes)[code].(redeemedAt := Some(now), sessionId := Some(id))]
      ensures ok ==> sessions == old(sessions)[id := Session(old(codes)[code].tenantId, old(codes)[code].userId, refresh, None, None, expiresAt, None, None)]
      ensures !ok ==> unchanged(this)
    {
      if code !in codes || codes[code].redeemedAt.Some? || codes[code].expiresAt <= now {
        return false;
      }
      var c := codes[code];
      if id in sessions || exists k | k in sessions :: sessions[k].refresh == refresh {
        return false;
      }
      codes := codes[code := c.(redeemedAt := Some(now), sessionId := Some(id))];
      sessions := sessions[id := Session(c.tenantId, c.userId, refresh, None, None, expiresAt, None, None)];
      ok := true;
    }

    /** A presented token is rotated, retried, reported as reused, or not found. */
    method Refresh(t: Token, next: Token, now: int, ttl: int, grace: int) returns (outcome: Outcome, id: Id)
      modifies this`sessions
      ensures Refreshes(old(sessions), t, next, now, ttl, grace, outcome, id, sessions)
    {
      outcome, id := NotFound, [];
      if k :| k in sessions && Answers(sessions[k], t, now) {
        id := k;
        var s := sessions[id];
        if s.refresh == t {
          outcome := Rotated;
          s := s.(previous := Some(s.refresh), refresh := next, rotatedAt := Some(now), expiresAt := now + ttl);
        } else if InGrace(s, now, grace) {
          outcome := Retried;
          s := s.(refresh := next);
        } else {
          outcome := Reused;
          s := s.(revokedAt := Some(now), reason := Some(TokenReused));
        }
        if !Unique(sessions, id, s) {
          outcome := Conflict;
          return;
        }
        sessions := sessions[id := s];
      }
    }

    /** Signs out whoever holds the token, if anyone does. */
    method SignOut(t: Token, now: int) returns (ended: Option<Id>)
      modifies this`sessions
      ensures ended.None? ==> sessions == old(sessions)
      ensures ended.None? ==> forall k | k in sessions :: !(Holds(sessions[k], t) && sessions[k].revokedAt.None?)
      ensures ended.Some? ==> EndedBy(old(sessions), ended.value, now, SignedOut, sessions) && Holds(old(sessions)[ended.value], t)
      ensures ended.Some? ==> sessions[ended.value].revokedAt == Some(now) && sessions[ended.value].reason == Some(SignedOut)
    {
      ended := None;
      if k :| k in sessions && Holds(sessions[k], t) && sessions[k].revokedAt.None? {
        sessions := sessions[k := sessions[k].(revokedAt := Some(now), reason := Some(SignedOut))];
        ended := Some(k);
      }
    }

    /** Revokes a session on behalf of its user, unless it is over or not theirs. */
    method Revoke(tenantId: Bytes, userId: Bytes, id: Id, reason: EndReason, now: int) returns (ok: bool)
      modifies this`sessions
      ensures ok <==> id in old(sessions) && old(sessions)[id].tenantId == tenantId && old(sessions)[id].userId == userId
                      && old(sessions)[id].revokedAt.None?
      ensures if ok then EndedBy(old(sessions), id, now, reason, sessions) else sessions == old(sessions)
      ensures ok ==> sessions[id].revokedAt == Some(now) && sessions[id].reason == Some(reason)
    {
      ok := id in sessions && sessions[id].tenantId == tenantId && sessions[id].userId == userId && sessions[id].revokedAt.None?;
      if ok {
        sessions := sessions[id := sessions[id].(revokedAt := Some(now), reason := Some(reason))];
      }
    }

    /** Deletes pairing codes and sessions that ended longer than `keep` ago. */
    method Purge(now: int, keep: int)
      modifies this
      ensures sessions == Kept(old(sessions), now, keep)
      ensures forall id | id in sessions :: id in old(sessions) && sessions[id] == old(sessions)[id]
      ensures forall id | id in old(sessions) && old(sessions)[id].revokedAt.Some? ::
          id in sessions <==> old(sessions)[id].revokedAt.value >= now - keep
      ensures forall id | id in old(sessions) && old(sessions)[id].revokedAt.None? ::
          id in sessions <==> old(sessions)[id].expiresAt >= now - keep
      ensures forall c :: c in codes <==> c in old(codes) && old(codes)[c].expiresAt >= now - keep
      ensures forall c | c in codes :: codes[c] == old(codes)[c]
    {
      codes := map c | c in codes && codes[c].expiresAt >= now - keep :: codes[c];
      sessions := Kept(sessions, now, keep);
    }
  }

  ghost predicate EndedBy(sessions: Sessions, id: Id, now: int, reason: EndReason, sessions': Sessions) {
    id in sessions && sessions[id].revokedAt.None? && sessions' == sessions[id := EndedSession(sessions[id], now, reason)]
  }

  // ----- runs -----

  datatype Config = Config(ttl: int, grace: int)

  /** An answered refresh. */
  datatype Entry = Entry(time: int, token: Token, outcome: Outcome)

  /** The table, the clock, and what happened so far: session ids and tokens ever issued, when each token was exchanged as
      current, the tokens that were superseded twice or dropped by a retry, and the refreshes that found a session. */
  datatype World = World(now: int, sessions: Sessions, ids: set<Id>, issued: set<Token>, exchanged: map<Token, int>,
                         dead: set<Token>, log: seq<Entry>)

  datatype Action =
    | Tick(now: int)
    | Pair(id: Id, token: Token, session: Session)
    | Refresh(t: Token, next: Token, outcome: Outcome, id: Id)
    | End(id: Id, reason: EndReason)
    | Purge(keep: nat)

  /** What a refresh does to the tokens: the old previous dies on a rotation, the dropped current one on a retry. */
  ghost function AfterRefresh(w: World, s: Session, t: Token, next: Token, outcome: Outcome, sessions: Sessions): World {
    var dying := match outcome
      case Rotated => if s.previous.Some? then {s.previous.value} else {}
      case Retried => {s.refresh}
      case _ => {};
    World(w.now, sessions, w.ids, w.issued + {next},
          if outcome == Rotated then w.exchanged[t := w.now] else w.exchanged,
          w.dead + dying, w.log + [Entry(w.now, t, outcome)])
  }

  /** New ids and tokens are fresh: 128-bit ids and 256-bit random tokens. */
  ghost predicate Step(g: Config, w: World, a: Action, w': World) {
    match a
    case Tick(now) => now >= w.now && w' == w.(now := now)
    case Pair(id, token, session) =>
      && id !in w.ids && token !in w.issued
      && session.refresh == token && session.previous.None? && session.rotatedAt.None? && session.revokedAt.None?
      && w' == w.(sessions := w.sessions[id := session], ids := w.ids + {id}, issued := w.issued + {token})
    case Refresh(t, next, outcome, id) =>
      && next !in w.issued && next != t
      && Refreshes(w.sessions, t, next, w.now, g.ttl, g.grace, outcome, id, w'.sessions)
      && w' == (if outcome == NotFound || outcome == Conflict then w.(issued := w.issued + {next})
                else AfterRefresh(w, w.sessions[id], t, next, outcome, w'.sessions))
    case End(id, reason) => EndedBy(w.sessions, id, w.now, reason, w'.sessions) && w' == w.(sessions := w'.sessions)
    case Purge(keep) => w' == w.(sessions := Kept(w.sessions, w.now, keep))
  }

  ghost predicate IsRun(g: Config, worlds: seq<World>, actions: seq<Action>) {
    && |worlds| == |actions| + 1 && worlds[0] == World(worlds[0].now, map[], {}, {}, map[], {}, [])
    && forall i | 0 <= i < |actions| :: Step(g, worlds[i], actions[i], worlds[i + 1])
  }

  // ----- what every run keeps -----

  /** A session's tokens were issued and live: the current one never exchanged, the previous one exchanged when the row says. */
  ghost predicate TokensSound(w: World, s: Session) {
    && s.refresh in w.issued && s.refresh !in w.exchanged && s.refresh !in w.dead
    && (s.previous.Some? ==>
        && s.previous.value in w.issued && s.previous.value !in w.dead
        && s.previous.value in w.exchanged && s.rotatedAt == Some(w.exchanged[s.previous.value]))
  }

  /** No token belongs to two sessions. */
  ghost predicate Apart(sessions: Sessions) {
    forall i, j, t | i in sessions && j in sessions && Holds(sessions[i], t) && Holds(sessions[j], t) :: i == j
  }

  /** A retry falls in the grace period of the one exchange of its token. */
  ghost predicate EntrySound(g: Config, w: World, e: Entry) {
    && (e.outcome == Rotated ==> e.token in w.exchanged && w.exchanged[e.token] == e.time)
    && (e.outcome == Retried ==> e.token in w.exchanged && w.exchanged[e.token] <= e.time < w.exchanged[e.token] + g.grace)
  }

  ghost predicate Inv(g: Config, w: World) {
    && w.sessions.Keys <= w.ids && w.exchanged.Keys <= w.issued && w.dead <= w.issued
    && (forall t | t in w.exchanged :: w.exchanged[t] <= w.now)
    && (forall id | id in w.sessions :: TokensSound(w, w.sessions[id]))
    && Apart(w.sessions)
    && (forall i | 0 <= i < |w.log| :: EntrySound(g, w, w.log[i]))
    && OneRotation(w.log)
  }

  ghost predicate OneRotation(log: seq<Entry>) {
    forall i, j | 0 <= i < j < |log| && log[i].outcome == Rotated && log[j].outcome == Rotated :: log[i].token != log[j].token
  }

  lemma ReplacedStaysApart(sessions: Sessions, id: Id, s: Session, next: Token)
    requires Apart(sessions) && id in sessions
    requires forall k | k in sessions :: !Holds(sessions[k], next)
    requires forall t | Holds(s, t) :: t == next || Holds(sessions[id], t)
    ensures Apart(sessions[id := s])
  {
    var r := sessions[id := s];
    forall i, j, t | i in r && j in r && Holds(r[i], t) && Holds(r[j], t) ensures i == j {
      if t != next {
        assert Holds(sessions[i], t) && Holds(sessions[j], t);
      }
    }
  }

  lemma AcceptedKeepsSessions(g: Config, w: World, t: Token, next: Token, outcome: Outcome, id: Id, w': World)
    requires Inv(g, w) && Step(g, w, Refresh(t, next, outcome, id), w') && (outcome == Rotated || outcome == Retried || outcome == Reused)
    ensures forall k | k in w'.sessions :: TokensSound(w', w'.sessions[k])
    ensures Apart(w'.sessions)
  {
    var s := w.sessions[id];
    assert TokensSound(w, s);
    forall k | k in w.sessions ensures !Holds(w.sessions[k], next) {
      assert TokensSound(w, w.sessions[k]);
    }
    ReplacedStaysApart(w.sessions, id, w'.sessions[id], next);
    forall k | k in w'.sessions ensures TokensSound(w', w'.sessions[k]) {
      assert TokensSound(w, w.sessions[k]);
      if k != id {
        OthersKeepTheirTokens(w, id, k);
      }
    }
  }

  /** What one session holds, another does not. */
  lemma OthersKeepTheirTokens(w: World, id: Id, k: Id)
    requires Apart(w.sessions) && id in w.sessions && k in w.sessions && id != k
    ensures !Holds(w.sessions[k], w.sessions[id].refresh)
    ensures w.sessions[id].previous.Some? ==> !Holds(w.sessions[k], w.sessions[id].previous.value)
  {
    assert Holds(w.sessions[id], w.sessions[id].refresh);
    assert w.sessions[id].previous.Some? ==> Holds(w.sessions[id], w.sessions[id].previous.value);
  }

  lemma AcceptedKeepsLog(g: Config, w: World, t: Token, next: Token, outcome: Outcome, id: Id, w': World)
    requires Inv(g, w) && Step(g, w, Refresh(t, next, outcome, id), w') && (outcome == Rotated || outcome == Retried || outcome == Reused)
    ensures forall i | 0 <= i < |w'.log| :: EntrySound(g, w', w'.log[i])
    ensures OneRotation(w'.log)
  {
    hide Apart;
    assert TokensSound(w, w.sessions[id]);
    forall i | 0 <= i < |w'.log| ensures EntrySound(g, w', w'.log[i]) {
      assert i < |w.log| ==> EntrySound(g, w, w.log[i]);
    }
    forall i, j | 0 <= i < j < |w'.log| && w'.log[i].outcome == Rotated && w'.log[j].outcome == Rotated
      ensures w'.log[i].token != w'.log[j].token
    {
      assert EntrySound(g, w, w.log[i]);
    }
  }

  lemma RefreshKeepsInv(g: Config, w: World, t: Token, next: Token, outcome: Outcome, id: Id, w': World)
    requires Inv(g, w) && Step(g, w, Refresh(t, next, outcome, id), w')
    ensures Inv(g, w')
  {
    hide Apart, OneRotation;
    if outcome == Rotated || outcome == Retried || outcome == Reused {
      AcceptedKeepsSessions(g, w, t, next, outcome, id, w');
      AcceptedKeepsLog(g, w, t, next, outcome, id, w');
      assert TokensSound(w, w.sessions[id]);
    } else {
      forall k | k in w'.sessions ensures TokensSound(w', w'.sessions[k]) {
        assert TokensSound(w, w.sessions[k]);
      }
      forall i | 0 <= i < |w'.log| ensures EntrySound(g, w', w'.log[i]) {
        assert EntrySound(g, w, w.log[i]);
      }
    }
  }

  /** With fresh tokens the columns' UNIQUE constraints never fail a refresh. */
  lemma FreshNeverConflicts(g: Config, w: World, t: Token, next: Token, outcome: Outcome, id: Id, w': World)
    requires Inv(g, w) && Step(g, w, Refresh(t, next, outcome, id), w')
    ensures outcome != Conflict
  {
    hide EntrySound, OneRotation;
    if outcome == Conflict {
      var s := w.sessions[id];
      forall k | k in w.sessions && k != id
        ensures w.sessions[k].refresh != next && !Holds(w.sessions[k], s.refresh)
        ensures s.previous.Some? ==> !Holds(w.sessions[k], s.previous.value)
      {
        assert TokensSound(w, w.sessions[k]);
        OthersKeepTheirTokens(w, id, k);
      }
    }
  }

  /** Steps that take no token from anyone and exchange none. */
  lemma QuietKeepsInv(g: Config, w: World, a: Action, w': World)
    requires Inv(g, w) && Step(g, w, a, w') && !a.Refresh?
    ensures Inv(g, w')
  {
    hide OneRotation;
    forall k | k in w'.sessions ensures TokensSound(w', w'.sessions[k]) {
      assert k in w.sessions ==> TokensSound(w, w.sessions[k]);
    }
    forall i, j, t | i in w'.sessions && j in w'.sessions && Holds(w'.sessions[i], t) && Holds(w'.sessions[j], t) ensures i == j {
      assert i in w.sessions ==> TokensSound(w, w.sessions[i]) && Holds(w.sessions[i], t);
      assert j in w.sessions ==> TokensSound(w, w.sessions[j]) && Holds(w.sessions[j], t);
    }
    forall i | 0 <= i < |w'.log| ensures EntrySound(g, w', w'.log[i]) {
      assert EntrySound(g, w, w.log[i]);
    }
  }

  lemma StepKeepsInv(g: Config, w: World, a: Action, w': World)
    requires Inv(g, w) && Step(g, w, a, w')
    ensures Inv(g, w')
  {
    hide Inv, Step;
    if a.Refresh? {
      RefreshKeepsInv(g, w, a.t, a.next, a.outcome, a.id, w');
    } else {
      QuietKeepsInv(g, w, a, w');
    }
  }

  lemma {:induction false} RunInv(g: Config, worlds: seq<World>, actions: seq<Action>, n: nat)
    requires IsRun(g, worlds, actions) && n < |worlds|
    ensures Inv(g, worlds[n])
  {
    if n > 0 {
      hide Inv, Step;
      RunInv(g, worlds, actions, n - 1);
      StepKeepsInv(g, worlds[n - 1], actions[n - 1], worlds[n]);
    }
  }

  // ----- what every run guarantees -----

  /** Each token is exchanged as current at most once, and all its retries fall in the one grace period after that. */
  lemma ExchangedOnceRetriedInGrace(g: Config, worlds: seq<World>, actions: seq<Action>, n: nat)
    requires IsRun(g, worlds, actions) && n < |worlds|
    ensures OneRotation(worlds[n].log)
    ensures forall i | 0 <= i < |worlds[n].log| && worlds[n].log[i].outcome == Retried ::
              var e := worlds[n].log[i];
              e.token in worlds[n].exchanged && worlds[n].exchanged[e.token] <= e.time < worlds[n].exchanged[e.token] + g.grace
  {
    hide IsRun, OneRotation, Apart, TokensSound;
    RunInv(g, worlds, actions, n);
    forall i | 0 <= i < |worlds[n].log| && worlds[n].log[i].outcome == Retried
      ensures var e := worlds[n].log[i];
              e.token in worlds[n].exchanged && worlds[n].exchanged[e.token] <= e.time < worlds[n].exchanged[e.token] + g.grace
    {
      assert EntrySound(g, worlds[n], worlds[n].log[i]);
    }
  }

  lemma {:induction false} DeadStaysDead(g: Config, worlds: seq<World>, actions: seq<Action>, i: nat, j: nat)
    requires IsRun(g, worlds, actions) && i <= j < |worlds|
    ensures worlds[i].dead <= worlds[j].dead
    decreases j
  {
    if i < j {
      DeadStaysDead(g, worlds, actions, i, j - 1);
      assert Step(g, worlds[j - 1], actions[j - 1], worlds[j]);
    }
  }

  /** A token superseded twice, or dropped by a retry, is never accepted again. */
  lemma DeadTokensFindNothing(g: Config, worlds: seq<World>, actions: seq<Action>, i: nat, j: nat)
    requires IsRun(g, worlds, actions) && i <= j < |actions|
    requires actions[j].Refresh? && actions[j].t in worlds[i].dead
    ensures actions[j].outcome == NotFound && worlds[j + 1].sessions == worlds[j].sessions
  {
    DeadStaysDead(g, worlds, actions, i, j);
    RunInv(g, worlds, actions, j);
    var w, a := worlds[j], actions[j];
    assert Step(g, w, a, worlds[j + 1]);
    assert a.id in w.sessions ==> TokensSound(w, w.sessions[a.id]);
  }

  /** An ended session stays ended for as long as its row exists. */
  lemma {:induction false} EndedForGood(g: Config, worlds: seq<World>, actions: seq<Action>, i: nat, j: nat, id: Id)
    requires IsRun(g, worlds, actions) && i <= j < |worlds|
    requires id in worlds[i].sessions && worlds[i].sessions[id].revokedAt.Some?
    ensures id in worlds[j].ids && (id in worlds[j].sessions ==> worlds[j].sessions[id] == worlds[i].sessions[id])
    decreases j
  {
    RunInv(g, worlds, actions, j);
    if i < j {
      hide Inv;
      EndedForGood(g, worlds, actions, i, j - 1, id);
      assert Step(g, worlds[j - 1], actions[j - 1], worlds[j]);
    }
  }

  // ----- what each refresh answers -----

  /** What a refresh answers and does, told from the row before it and the time its token was exchanged. */
  ghost predicate AnswersRightly(g: Config, w: World, t: Token, next: Token, outcome: Outcome, id: Id, sessions: Sessions) {
    match outcome
    case NotFound =>
      && sessions == w.sessions
      && forall k | k in w.sessions ::
           w.sessions[k].revokedAt.Some? || w.sessions[k].expiresAt <= w.now || (w.sessions[k].refresh != t && w.sessions[k].previous != Some(t))
    case Conflict => false
    case _ =>
      && id in w.sessions && w.sessions[id].revokedAt.None? && w.now < w.sessions[id].expiresAt
      && id in sessions && sessions == w.sessions[id := sessions[id]]
      && RowChanges(g, w, w.sessions[id], t, next, outcome, sessions[id])
  }

  /** The current token rotates; the previous one is retried within `grace` of its exchange, which moves neither that time
      nor the expiry; after that it ends the session. */
  ghost predicate RowChanges(g: Config, w: World, s: Session, t: Token, next: Token, outcome: Outcome, r: Session) {
    match outcome
    case Rotated =>
      s.refresh == t && r == Session(s.tenantId, s.userId, next, Some(t), Some(w.now), w.now + g.ttl, None, s.reason)
    case Retried =>
      && s.refresh != t && s.previous == Some(t) && t in w.exchanged && w.now < w.exchanged[t] + g.grace
      && r == Session(s.tenantId, s.userId, next, Some(t), Some(w.exchanged[t]), s.expiresAt, None, s.reason)
    case Reused =>
      && s.refresh != t && s.previous == Some(t) && t in w.exchanged && w.exchanged[t] + g.grace <= w.now
      && r == Session(s.tenantId, s.userId, s.refresh, Some(t), Some(w.exchanged[t]), s.expiresAt, Some(w.now), Some(TokenReused))
    case _ => false
  }

  lemma StepAnswersRightly(g: Config, w: World, t: Token, next: Token, outcome: Outcome, id: Id, w': World)
    requires Inv(g, w) && Step(g, w, Refresh(t, next, outcome, id), w')
    ensures AnswersRightly(g, w, t, next, outcome, id, w'.sessions)
  {
    FreshNeverConflicts(g, w, t, next, outcome, id, w');
    hide EntrySound, OneRotation, Apart, Unique;
    if outcome != NotFound {
      assert TokensSound(w, w.sessions[id]);
    }
  }

  /** In every run every refresh is answered and carried out so. */
  lemma RefreshAnswersRightly(g: Config, worlds: seq<World>, actions: seq<Action>, j: nat)
    requires IsRun(g, worlds, actions) && j < |actions| && actions[j].Refresh?
    ensures AnswersRightly(g, worlds[j], actions[j].t, actions[j].next, actions[j].outcome, actions[j].id, worlds[j + 1].sessions)
  {
    hide Inv, Step, AnswersRightly;
    RunInv(g, worlds, actions, j);
    var a := actions[j];
    assert Step(g, worlds[j], a, worlds[j + 1]);
    StepAnswersRightly(g, worlds[j], a.t, a.next, a.outcome, a.id, worlds[j + 1]);
  }

  /** A token its session has replaced, presented once the grace period is over, ends that session on the spot. */
  lemma ReuseEndsTheSession(g: Config, worlds: seq<World>, actions: seq<Action>, j: nat, id: Id)
    requires IsRun(g, worlds, actions) && j < |actions| && actions[j].Refresh?
    requires id in worlds[j].sessions && worlds[j].sessions[id].revokedAt.None? && worlds[j].now < worlds[j].sessions[id].expiresAt
    requires worlds[j].sessions[id].previous == Some(actions[j].t)
    ensures actions[j].t in worlds[j].exchanged
    ensures worlds[j].exchanged[actions[j].t] + g.grace <= worlds[j].now ==>
              && actions[j].outcome == Reused && id in worlds[j + 1].sessions
              && worlds[j + 1].sessions[id].revokedAt == Some(worlds[j].now) && worlds[j + 1].sessions[id].reason == Some(TokenReused)
  {
    hide Step, EntrySound, OneRotation;
    RefreshAnswersRightly(g, worlds, actions, j);
    RunInv(g, worlds, actions, j);
    var w, a := worlds[j], actions[j];
    assert TokensSound(w, w.sessions[id]) && Holds(w.sessions[id], a.t);
    if a.outcome != NotFound {
      assert Holds(w.sessions[a.id], a.t);
    }
  }

  lemma StaysHomeStep(g: Config, w: World, a: Action, w': World, id: Id, t: Token)
    requires Step(g, w, a, w') && t in w.issued && id in w.ids
    requires forall k | k in w.sessions && k != id :: !Holds(w.sessions[k], t)
    ensures t in w'.issued && id in w'.ids && forall k | k in w'.sessions && k != id :: !Holds(w'.sessions[k], t)
  {
    hide Unique;
  }

  /** A token that only one session can hold is never held by another. */
  lemma {:induction false} TokensStayHome(g: Config, worlds: seq<World>, actions: seq<Action>, i: nat, j: nat, id: Id, t: Token)
    requires IsRun(g, worlds, actions) && i <= j < |worlds| && t in worlds[i].issued && id in worlds[i].ids
    requires forall k | k in worlds[i].sessions && k != id :: !Holds(worlds[i].sessions[k], t)
    ensures t in worlds[j].issued && id in worlds[j].ids && forall k | k in worlds[j].sessions && k != id :: !Holds(worlds[j].sessions[k], t)
    decreases j
  {
    if i < j {
      hide Step, Holds;
      TokensStayHome(g, worlds, actions, i, j - 1, id, t);
      StaysHomeStep(g, worlds[j - 1], actions[j - 1], worlds[j], id, t);
    }
  }

  /** Once a session is ended, by reuse, sign-out or revocation, no token it held is ever accepted again. */
  lemma EndedTokensFindNothing(g: Config, worlds: seq<World>, actions: seq<Action>, i: nat, j: nat, id: Id)
    requires IsRun(g, worlds, actions) && i <= j < |actions| && actions[j].Refresh?
    requires id in worlds[i].sessions && worlds[i].sessions[id].revokedAt.Some? && Holds(worlds[i].sessions[id], actions[j].t)
    ensures actions[j].outcome == NotFound && worlds[j + 1].sessions == worlds[j].sessions
  {
    hide Step, EntrySound, OneRotation;
    RunInv(g, worlds, actions, i);
    var w, t := worlds[i], actions[j].t;
    assert TokensSound(w, w.sessions[id]);
    TokensStayHome(g, worlds, actions, i, j, id, t);
    EndedForGood(g, worlds, actions, i, j, id);
    RefreshAnswersRightly(g, worlds, actions, j);
  }

  // ----- a client that resends in time -----

  /** The app: the last token it received, and when the first request with that token was handled, if its response was lost. */
  datatype Client = Client(held: Token, first: Option<int>)

  ghost predicate Live(w: World, id: Id) {
    id in w.sessions && w.sessions[id].revokedAt.None?
  }

  /** The client's token is its session's alone, and while the session lives the row says what became of it. */
  ghost predicate InStep(w: World, id: Id, c: Client) {
    && c.held in w.issued && (forall k | k in w.sessions && k != id :: !Holds(w.sessions[k], c.held))
    && (Live(w, id) ==>
        if c.first.None? then w.sessions[id].refresh == c.held
        else w.sessions[id].refresh != c.held && w.sessions[id].previous == Some(c.held) && w.sessions[id].rotatedAt == c.first)
  }

  /** A device that was just paired is in step. */
  lemma PairedIsInStep(g: Config, w: World, id: Id, token: Token, session: Session, w': World)
    requires Inv(g, w) && Step(g, w, Pair(id, token, session), w')
    ensures InStep(w', id, Client(token, None))
  {
    hide EntrySound, OneRotation, Apart;
    forall k | k in w'.sessions && k != id ensures !Holds(w'.sessions[k], token) {
      assert TokensSound(w, w.sessions[k]);
    }
  }

  /** The client's request is handled and answered; the response arrives or is lost. */
  ghost function Received(w: World, c: Client, a: Action, arrives: bool): Client
    requires a.Refresh?
  {
    if a.outcome != Rotated && a.outcome != Retried then c
    else if arrives then Client(a.next, None)
    else if c.first.None? then c.(first := Some(w.now)) else c
  }

  /** The client sends the token it holds; a resend is handled within the grace period of the first request. */
  ghost predicate ClientSends(g: Config, w: World, c: Client, a: Action) {
    a.Refresh? && a.t == c.held && (c.first.Some? ==> w.now < c.first.value + g.grace)
  }

  /** Whoever sends a token of the session's alone reaches that session or none. */
  lemma ReachesItsOwn(g: Config, w: World, id: Id, c: Client, a: Action, w': World)
    requires InStep(w, id, c) && Step(g, w, a, w') && ClientSends(g, w, c, a)
    ensures a.outcome == NotFound || (a.id == id && Live(w, id) && w.sessions[id].expiresAt > w.now)
    ensures a.outcome == NotFound ==> !(Live(w, id) && w.sessions[id].expiresAt > w.now)
  {
    hide Unique;
  }

  /** The client's own request keeps it in step and never ends its session as reused. */
  lemma ClientStaysInStep(g: Config, w: World, id: Id, c: Client, a: Action, w': World, arrives: bool)
    requires Inv(g, w) && InStep(w, id, c) && Step(g, w, a, w') && ClientSends(g, w, c, a)
    ensures a.outcome != Reused
    ensures InStep(w', id, Received(w, c, a, arrives))
  {
    hide EntrySound, OneRotation, Apart, Unique;
    ReachesItsOwn(g, w, id, c, a, w');
    forall k | k in w.sessions ensures !Holds(w.sessions[k], a.next) {
      assert TokensSound(w, w.sessions[k]);
    }
  }

  /** Others, who do not have the client's tokens, leave it in step. */
  lemma OthersLeaveInStep(g: Config, w: World, id: Id, c: Client, a: Action, w': World)
    requires Inv(g, w) && InStep(w, id, c) && Step(g, w, a, w') && id in w.ids
    requires a.Refresh? && id in w.sessions ==> !Holds(w.sessions[id], a.t)
    ensures InStep(w', id, c)
  {
    hide EntrySound, OneRotation, Apart;
  }

  /** A client's life: steps of its own, whose responses arrive or not, among the steps of others. */
  datatype Event = Mine(a: Action, arrives: bool) | Others(a: Action)

  ghost predicate EventStep(g: Config, id: Id, w: World, c: Client, e: Event, w': World, c': Client) {
    && Step(g, w, e.a, w')
    && match e
       case Mine(a, arrives) => ClientSends(g, w, c, a) && c' == Received(w, c, a, arrives)
       case Others(a) => c' == c && (a.Refresh? && id in w.sessions ==> !Holds(w.sessions[id], a.t))
  }

  ghost predicate ClientRun(g: Config, id: Id, worlds: seq<World>, clients: seq<Client>, events: seq<Event>) {
    && |worlds| == |clients| == |events| + 1
    && Inv(g, worlds[0]) && id in worlds[0].ids && InStep(worlds[0], id, clients[0])
    && forall i | 0 <= i < |events| :: EventStep(g, id, worlds[i], clients[i], events[i], worlds[i + 1], clients[i + 1])
  }

  lemma IdsStay(g: Config, w: World, a: Action, w': World, id: Id)
    requires Step(g, w, a, w') && id in w.ids
    ensures id in w'.ids
  {
  }

  lemma {:induction false} ClientRunInStep(g: Config, id: Id, worlds: seq<World>, clients: seq<Client>, events: seq<Event>, n: nat)
    requires ClientRun(g, id, worlds, clients, events) && n < |worlds|
    ensures Inv(g, worlds[n]) && id in worlds[n].ids && InStep(worlds[n], id, clients[n])
  {
    if n > 0 {
      hide Inv, InStep, Step;
      ClientRunInStep(g, id, worlds, clients, events, n - 1);
      assert EventStep(g, id, worlds[n - 1], clients[n - 1], events[n - 1], worlds[n], clients[n]);
      var w, c, w' := worlds[n - 1], clients[n - 1], worlds[n];
      StepKeepsInv(g, w, events[n - 1].a, w');
      IdsStay(g, w, events[n - 1].a, w', id);
      match events[n - 1]
      case Mine(a, arrives) => ClientStaysInStep(g, w, id, c, a, w', arrives);
      case Others(a) => OthersLeaveInStep(g, w, id, c, a, w');
    }
  }

  /** A client that only resends the last token it received, within the grace period, is never ended as reused, whatever
      happens to its session: it finds that session for as long as it is neither ended nor expired, and nothing afterwards. */
  lemma CarefulClientIsNeverEnded(g: Config, id: Id, worlds: seq<World>, clients: seq<Client>, events: seq<Event>, n: nat)
    requires ClientRun(g, id, worlds, clients, events) && n < |events| && events[n].Mine?
    ensures events[n].a.Refresh? && events[n].a.outcome != Reused
    ensures events[n].a.outcome == NotFound <==> !(Live(worlds[n], id) && worlds[n].sessions[id].expiresAt > worlds[n].now)
  {
    hide Inv, InStep, Step;
    assert EventStep(g, id, worlds[n], clients[n], events[n], worlds[n + 1], clients[n + 1]);
    ClientRunInStep(g, id, worlds, clients, events, n);
    ClientStaysInStep(g, worlds[n], id, clients[n], events[n].a, worlds[n + 1], events[n].arrives);
    ReachesItsOwn(g, worlds[n], id, clients[n], events[n].a, worlds[n + 1]);
  }
}
